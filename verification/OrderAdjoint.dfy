/** compiler/gradient_with_order.cc:357-421: while gradients are kept current, differentiating in a
    given order computes what reverse mode computes, so the result is the adjoint. */
module OrderAdjoint {
  import opened Ir
  import opened Dual
  import opened GradientOps
  import opened OrderPlan
  import opened OrderGradients
  import opened OrderSync
  import B = Builder
  import FM = ForwardMode
  import G = Gradient
  import GG = GradientGraphs
  import RM = ReverseMode

  type Numbers = map<Holder, real>

  /** The gradient at `h`; zero without one. */
  function Num(g: Numbers, h: Holder): real {
    if h in g then g[h] else 0.0
  }

  /** The operands' shares, each added where the operand is staged. */
  function Spread(g: Numbers, hs: seq<Holder>, cs: seq<real>): Numbers
    requires |hs| == |cs|
    decreases |hs|
  {
    if hs == [] then g else
      var k := |hs| - 1;
      var before := Spread(g, hs[..k], cs[..k]);
      before[hs[k] := Num(before, hs[k]) + cs[k]]
  }

  /** All that `h` receives. */
  function Received(hs: seq<Holder>, cs: seq<real>, h: Holder): real
    requires |hs| == |cs|
    decreases |hs|
  {
    if hs == [] then 0.0 else
      var k := |hs| - 1;
      Received(hs[..k], cs[..k], h) + if hs[k] == h then cs[k] else 0.0
  }

  lemma {:induction false} SpreadAt(g: Numbers, hs: seq<Holder>, cs: seq<real>, h: Holder)
    requires |hs| == |cs|
    ensures Num(Spread(g, hs, cs), h) == Num(g, h) + Received(hs, cs, h)
    ensures h in Spread(g, hs, cs) <==> h in g || h in hs
    ensures h !in hs ==> Alike(g, h, Spread(g, hs, cs), h)
    decreases |hs|
  {
    if hs != [] {
      var k := |hs| - 1;
      SpreadAt(g, hs[..k], cs[..k], h);
      assert hs == hs[..k] + [hs[k]];
    }
  }

  /** What the gradient function of `n` passes to its operands. */
  ghost function Pulls(env: Env, n: Node, gy: real): (cs: seq<real>)
    requires Differentiable(n.op) && |n.inputs| == Arity(n.op) && (n.op.Div? ==> RealOf(env(n.inputs[1])) != 0.0)
    ensures |cs| == |n.inputs|
  {
    seq(|n.inputs|, i requires 0 <= i < |n.inputs| => Pullback(n.op, Reals(env, n.inputs), gy, i))
  }

  /** In a run every node with a gradient has operands fit for it. */
  ghost predicate Ready(env: Env, n: Node) {
    Differentiable(n.op) ==> Operand(env, n)
  }

  /** One backward order, with numbers. */
  ghost function AfterNumbers(env: Env, g: Numbers, t: Places, n: Node): Numbers
    requires Sized(t, n) && Ready(env, n)
  {
    var g1 := Collected(g, t, n);
    var g2 := if Active(g1.Keys, t, n) then Spread(g1, t.now, Pulls(env, n, g1[t.nowOuts[0]])) else g1;
    Returned(g2, t.now, n.inputs)
  }

  /** What reverse mode adds at `v`. */
  ghost function Step(env: Env, g: Numbers, n: Node, v: ValueId): real {
    if Operand(env, n) then Contribution(env, n, Num(g, Forward(n.outputs[0])), v) else 0.0
  }

  // ---- one order ----

  ghost predicate Even(g: Numbers, k: Track, h: Holder, v: ValueId) {
    && (Stand(h, v) in k.current ==> Alike(g, h, g, Forward(v)))
    && (Forward(v) !in k.have ==> h !in k.have)
  }

  /** Current holders have the number of their value; values without a gradient have none anywhere. */
  ghost predicate TellsNumbers(redos: seq<Redo>, forward: map<NodeId, Node>, k: Track, g: Numbers) {
    k.have == g.Keys && forall h: Holder, v: ValueId :: StandsFor(redos, forward, h, v) ==> Even(g, k, h, v)
  }

  /** The outputs of the node are staged as it computed them last. */
  ghost predicate OutsStaged(t: Places, n: Node) {
    |t.nowOuts| == |n.outputs|
    && if t.own + t.ownOuts == [] then forall i :: 0 <= i < |n.outputs| ==> t.nowOuts[i] == Forward(n.outputs[i])
       else t.nowOuts == t.ownOuts && |t.own| == |n.inputs|
  }

  lemma CollectedEven(redos: seq<Redo>, forward: map<NodeId, Node>, k: Track, g: Numbers, t: Places, n: Node, h: Holder,
                      v: ValueId)
    requires TellsNumbers(redos, forward, k, g) && Placed(redos, forward, t, n) && StandsFor(redos, forward, h, v)
    ensures Even(Collected(g, t, n), Collecting(k, t, n), h, v)
    ensures Alike(g, Forward(v), Collected(g, t, n), Forward(v)) && Collecting(k, t, n).have == Collected(g, t, n).Keys
  {
    var hs, vs := t.own + t.ownOuts, Operands(n);
    assert Even(g, k, h, v);
    CollectedAt(g, t, n);
    if hs != [] {
      GatheredKeys(g, hs, vs);
      LoadedAt(g, hs, vs);
      hide Loaded, Gathered;
      if h in hs {
        var i :| 0 <= i < |hs| && hs[i] == h;
        OneValue(redos, forward, h, v, vs[i]);
      } else {
        assert Stand(h, v) !in Pairs(hs, vs);
        assert Alike(g, h, Collected(g, t, n), h);
      }
    }
  }

  lemma CollectedTellsNumbers(redos: seq<Redo>, forward: map<NodeId, Node>, k: Track, g: Numbers, t: Places, n: Node)
    requires TellsNumbers(redos, forward, k, g) && Placed(redos, forward, t, n)
    ensures TellsNumbers(redos, forward, Collecting(k, t, n), Collected(g, t, n))
  {
    hide Even, StandsFor, Stands, OneEach, AllStand, Collected, Collecting;
    forall h: Holder, v: ValueId | StandsFor(redos, forward, h, v)
      ensures Even(Collected(g, t, n), Collecting(k, t, n), h, v)
    {
      CollectedEven(redos, forward, k, g, t, n, h, v);
    }
    SomeStands(redos, forward);
    CollectedEven(redos, forward, k, g, t, n, Forward(0), 0);
  }

  lemma SomeStands(redos: seq<Redo>, forward: map<NodeId, Node>)
    ensures StandsFor(redos, forward, Forward(0), 0)
  {
  }

  ghost predicate Matched(g1: Numbers, t: Places, n: Node)
    requires |t.now| == |n.inputs|
  {
    forall i :: 0 <= i < |n.inputs| ==> Alike(g1, t.now[i], g1, Forward(n.inputs[i]))
  }

  lemma CurrentIsMatched(redos: seq<Redo>, forward: map<NodeId, Node>, k: Track, g: Numbers, t: Places, n: Node)
    requires TellsNumbers(redos, forward, k, g) && Placed(redos, forward, t, n) && AllCurrent(k, t, n)
    ensures Matched(Collected(g, t, n), t, n)
  {
    hide Collected, Collecting, Stands, OneEach;
    CollectedTellsNumbers(redos, forward, k, g, t, n);
    CollectedAt(g, t, n);
    forall i | 0 <= i < |n.inputs|
      ensures Alike(Collected(g, t, n), t.now[i], Collected(g, t, n), Forward(n.inputs[i]))
    {
      assert CurrentAt(k, t, n, i) && StandsFor(redos, forward, t.now[i], n.inputs[i]);
      assert Even(Collected(g, t, n), Collecting(k, t, n), t.now[i], n.inputs[i]);
      assert Alike(g, Forward(n.inputs[i]), Collected(g, t, n), Forward(n.inputs[i]));
    }
  }

  lemma ReceivedIs(env: Env, t: Places, n: Node, gy: real, i: nat)
    requires Operand(env, n) && Stands(t.now, n.inputs) && OneEach(t.now, n.inputs) && i < |n.inputs|
    ensures Received(t.now, Pulls(env, n, gy), t.now[i]) == Contribution(env, n, gy, n.inputs[i])
  {
    var cs, h := Pulls(env, n, gy), t.now[i];
    assert |n.inputs| == 1 || |n.inputs| == 2;
    ReceivedStep(t.now, cs, h);
    if |n.inputs| == 1 {
      assert t.now[..0] == [] && cs[..0] == [];
    } else {
      ReceivedStep(t.now[..1], cs[..1], h);
      assert t.now[..1][..0] == [] && cs[..1][..0] == [];
    }
  }

  lemma ReceivedStep(hs: seq<Holder>, cs: seq<real>, h: Holder)
    requires |hs| == |cs| && hs != []
    ensures Received(hs, cs, h) == Received(hs[..|hs| - 1], cs[..|hs| - 1], h) + if hs[|hs| - 1] == h then
      cs[|hs| - 1] else 0.0
  {
  }

  lemma NumAlike(a: Numbers, h: Holder, b: Numbers, h': Holder)
    requires Alike(a, h, b, h')
    ensures Num(a, h) == Num(b, h')
  {
  }

  /** The gradient of the output is where the node looks for it. */
  lemma OutIsForward(g: Numbers, t: Places, n: Node)
    requires Fit(t, n) && OutsStaged(t, n) && n.outputs != []
    ensures Alike(g, Forward(n.outputs[0]), Collected(g, t, n), t.nowOuts[0])
  {
    hide Collected, Stands, OneEach;
    CollectedAt(g, t, n);
    if t.own + t.ownOuts != [] {
      var i := |n.inputs|;
      assert (t.own + t.ownOuts)[i] == t.ownOuts[0] && Operands(n)[i] == n.outputs[0];
    }
  }

  /** What a node that hands on leaves at a value. */
  lemma SpreadBack(env: Env, g1: Numbers, t: Places, n: Node, gy: real, v: ValueId)
    requires Fit(t, n) && Operand(env, n) && Matched(g1, t, n)
    ensures
      var g3 := Returned(Spread(g1, t.now, Pulls(env, n, gy)), t.now, n.inputs);
      Num(g3, Forward(v)) == Num(g1, Forward(v)) + Contribution(env, n, gy, v)
  {
    hide Spread, Returned, Received, Pulls, Contribution, Stands, OneEach, Alike;
    var cs := Pulls(env, n, gy);
    var g2 := Spread(g1, t.now, cs);
    ReturnedAt(g2, t.now, n.inputs);
    if v in n.inputs {
      var i :| 0 <= i < |n.inputs| && n.inputs[i] == v;
      NumAlike(g2, t.now[i], Returned(g2, t.now, n.inputs), Forward(v));
      SpreadAt(g1, t.now, cs, t.now[i]);
      ReceivedIs(env, t, n, gy, i);
      NumAlike(g1, t.now[i], g1, Forward(v));
    } else {
      NotStaged(t, n, v);
      SpreadAt(g1, t.now, cs, Forward(v));
      NumAlike(g2, Forward(v), Returned(g2, t.now, n.inputs), Forward(v));
      NumAlike(g1, Forward(v), g2, Forward(v));
      G.NoContribution(env, n, gy, v);
    }
  }

  lemma IdleBack(g1: Numbers, t: Places, n: Node, v: ValueId)
    requires Fit(t, n) && Matched(g1, t, n)
    ensures Alike(g1, Forward(v), Returned(g1, t.now, n.inputs), Forward(v))
  {
    hide Returned, Stands, OneEach;
    ReturnedAt(g1, t.now, n.inputs);
    if v in n.inputs {
      var i :| 0 <= i < |n.inputs| && n.inputs[i] == v;
      assert Alike(g1, t.now[i], Returned(g1, t.now, n.inputs), Forward(v));
    }
  }

  /** The order does what a step of reverse mode does. */
  lemma OrderSteps(env: Env, g: Numbers, t: Places, n: Node, v: ValueId)
    requires Fit(t, n) && OutsStaged(t, n) && Ready(env, n) && Matched(Collected(g, t, n), t, n)
    ensures Num(AfterNumbers(env, g, t, n), Forward(v)) == Num(g, Forward(v)) + Step(env, g, n, v)
  {
    hide Collected, Spread, Returned, Pulls, Contribution, Stands, OneEach, Matched, Alike;
    var g1 := Collected(g, t, n);
    CollectedAt(g, t, n);
    NumAlike(g, Forward(v), g1, Forward(v));
    if Differentiable(n.op) {
      OutIsForward(g, t, n);
      NumAlike(g, Forward(n.outputs[0]), g1, t.nowOuts[0]);
    }
    if Active(g1.Keys, t, n) {
      SpreadBack(env, g1, t, n, g1[t.nowOuts[0]], v);
    } else {
      IdleBack(g1, t, n, v);
      NumAlike(g1, Forward(v), AfterNumbers(env, g, t, n), Forward(v));
      if Operand(env, n) { G.ZeroContribution(env, n, v); }
    }
  }

  lemma SpreadKeys(g: Numbers, hs: seq<Holder>, cs: seq<real>)
    requires |hs| == |cs|
    ensures Spread(g, hs, cs).Keys == g.Keys + SetOf(hs)
  {
    hide Spread, Received, Num;
    forall h ensures h in Spread(g, hs, cs) <==> h in g || h in hs { SpreadAt(g, hs, cs, h); }
  }

  lemma PassedEven(redos: seq<Redo>, forward: map<NodeId, Node>, c: Track, g1: Numbers, t: Places, n: Node,
                   cs: seq<real>, h: Holder, v: ValueId)
    requires TellsNumbers(redos, forward, c, g1) && Fit(t, n) && AllStand(redos, forward, t.now, n.inputs)
    requires Matched(g1, t, n)
    requires StandsFor(redos, forward, h, v) && |cs| == |t.now|
    ensures Even(Returned(Spread(g1, t.now, cs), t.now, n.inputs), Passed(c, t, n), h, v)
    ensures Passed(c, t, n).have == Returned(Spread(g1, t.now, cs), t.now, n.inputs).Keys
  {
    hide Spread, Returned, Received, Stands, OneEach, Num, Restored;
    var g2 := Spread(g1, t.now, cs);
    SpreadKeys(g1, t.now, cs);
    RestoredKeys(g2, t.now, n.inputs);
    ReturnedAt(g2, t.now, n.inputs);
    assert Even(g1, c, h, v);
    if h.Forward? {
      assert h == Forward(v);
    } else if h in t.now {
      var i :| 0 <= i < |t.now| && t.now[i] == h;
      OneValue(redos, forward, h, v, n.inputs[i]);
      assert Alike(g2, t.now[i], Returned(g2, t.now, n.inputs), Forward(n.inputs[i]));
      assert Alike(g2, h, Returned(g2, t.now, n.inputs), h);
    } else {
      assert Stand(h, v) !in Pairs(t.now, n.inputs);
      SpreadAt(g1, t.now, cs, h);
      assert Alike(g2, h, Returned(g2, t.now, n.inputs), h);
      if v in n.inputs {
        var i :| 0 <= i < |n.inputs| && n.inputs[i] == v;
        assert t.now[i] in g2;
        assert Alike(g2, t.now[i], Returned(g2, t.now, n.inputs), Forward(n.inputs[i]));
      } else {
        NotStaged(t, n, v);
        SpreadAt(g1, t.now, cs, Forward(v));
        assert Alike(g2, Forward(v), Returned(g2, t.now, n.inputs), Forward(v));
      }
    }
  }

  lemma IdleEven(redos: seq<Redo>, forward: map<NodeId, Node>, c: Track, g1: Numbers, t: Places, n: Node, h: Holder,
                 v: ValueId)
    requires TellsNumbers(redos, forward, c, g1) && Fit(t, n) && Matched(g1, t, n) && StandsFor(redos, forward, h, v)
    ensures Even(Returned(g1, t.now, n.inputs), c.(have := Restored(c.have, t.now, n.inputs)), h, v)
    ensures Restored(c.have, t.now, n.inputs) == Returned(g1, t.now, n.inputs).Keys
  {
    hide Returned, Stands, OneEach, Restored, Matched;
    RestoredKeys(g1, t.now, n.inputs);
    IdleBack(g1, t, n, v);
    ReturnedAt(g1, t.now, n.inputs);
    assert Even(g1, c, h, v);
    if !h.Forward? { assert Alike(g1, h, Returned(g1, t.now, n.inputs), h); }
  }

  lemma OrderTellsNumbers(redos: seq<Redo>, forward: map<NodeId, Node>, k: Track, env: Env, g: Numbers, t: Places,
                          n: Node)
    requires TellsNumbers(redos, forward, k, g) && Placed(redos, forward, t, n) && AllCurrent(k, t, n) && Ready(env, n)
    ensures TellsNumbers(redos, forward, Tracked(k, t, n), AfterNumbers(env, g, t, n))
  {
    hide Even, StandsFor, Stands, OneEach, Collected, Collecting, Passed, Spread, Returned, Pulls, Restored, AllCurrent,
      Matched;
    CollectedTellsNumbers(redos, forward, k, g, t, n);
    CurrentIsMatched(redos, forward, k, g, t, n);
    var c, g1 := Collecting(k, t, n), Collected(g, t, n);
    SomeStands(redos, forward);
    if Active(g1.Keys, t, n) {
      TrackedIs(k, t, n);
      var cs := Pulls(env, n, g1[t.nowOuts[0]]);
      PassedEven(redos, forward, c, g1, t, n, cs, Forward(0), 0);
      forall h: Holder, v: ValueId | StandsFor(redos, forward, h, v)
        ensures Even(AfterNumbers(env, g, t, n), Tracked(k, t, n), h, v)
      {
        PassedEven(redos, forward, c, g1, t, n, cs, h, v);
      }
    } else {
      IdleEven(redos, forward, c, g1, t, n, Forward(0), 0);
      forall h: Holder, v: ValueId | StandsFor(redos, forward, h, v)
        ensures Even(AfterNumbers(env, g, t, n), Tracked(k, t, n), h, v)
      {
        IdleEven(redos, forward, c, g1, t, n, h, v);
      }
    }
  }

  // ---- outputs are staged as computed last ----

  ghost predicate OneWriter(forward: map<NodeId, Node>) {
    forall m, n, i, k ::
      m in forward && n in forward && 0 <= i < |forward[m].outputs| && 0 <= k < |forward[n].outputs| ==>
        forward[m].outputs[i] == forward[n].outputs[k] ==> m == n && i == k
  }

  ghost predicate LastRedo(redos: seq<Redo>, n: NodeId, k: nat) {
    k < |redos| && redos[k].node == n && forall j :: k < j < |redos| ==> redos[j].node != n
  }

  ghost predicate OutStaged(p: Progress, n: NodeId, y: ValueId, i: nat)
    requires n in p.last && y in p.staged
  {
    if p.last[n] == Original then p.staged[y] == Itself(y)
    else p.staged[y].Output? && p.staged[y].index == i && LastRedo(p.redos, n, p.staged[y].redo)
  }

  ghost predicate OutsAsComputed(p: Progress, forward: map<NodeId, Node>) {
    forall n, i :: n in p.last && n in forward && 0 <= i < |forward[n].outputs| && forward[n].outputs[i] in p.staged ==>
      OutStaged(p, n, forward[n].outputs[i], i)
  }

  lemma DoneAsComputed(p: Progress, order: Order, forward: map<NodeId, Node>, two: bool)
    requires Known(order, forward) && Accepts(p, order, forward, two) && OneWriter(forward)
    requires OutsAsComputed(p, forward)
    ensures OutsAsComputed(Done(p, order, forward, two), forward)
  {
    var q := Done(p, order, forward, two);
    forall n, i | n in q.last && n in forward && 0 <= i < |forward[n].outputs| && forward[n].outputs[i] in q.staged
      ensures OutStaged(q, n, forward[n].outputs[i], i)
    {
      OutDone(p, order, forward, two, n, i);
    }
  }

  lemma OutDone(p: Progress, order: Order, forward: map<NodeId, Node>, two: bool, n: NodeId, i: nat)
    requires Known(order, forward) && Accepts(p, order, forward, two) && OneWriter(forward)
    requires OutsAsComputed(p, forward)
    requires n in Done(p, order, forward, two).last && n in forward && i < |forward[n].outputs|
    requires forward[n].outputs[i] in Done(p, order, forward, two).staged
    ensures OutStaged(Done(p, order, forward, two), n, forward[n].outputs[i], i)
  {
    var q, y := Done(p, order, forward, two), forward[n].outputs[i];
    if order.ComputeForward? && order.node == n {
      if n in p.scheduled { AgainIndex(p, forward, n, i); }
    } else {
      if order.ComputeForward? { NotOutput(forward, order.node, n, i); }
      assert OutStaged(p, n, y, i);
    }
  }

  lemma NotOutput(forward: map<NodeId, Node>, m: NodeId, n: NodeId, i: nat)
    requires OneWriter(forward) && m in forward && n in forward && m != n && i < |forward[n].outputs|
    ensures forward[n].outputs[i] !in forward[m].outputs
  {
  }

  lemma AgainIndex(p: Progress, forward: map<NodeId, Node>, n: NodeId, i: nat)
    requires OneWriter(forward) && n in forward && i < |forward[n].outputs|
    ensures Restaged(p.staged, forward[n].outputs, |p.redos|)[forward[n].outputs[i]] == Output(|p.redos|, i)
  {
  }

  lemma {:induction false} CourseAsComputed(r: Run, orders: seq<Order>)
    requires r.Goes(orders) && OneWriter(r.forward) && OutsAsComputed(r.p, r.forward)
    ensures OutsAsComputed(r.Now(orders), r.forward)
    decreases |orders|
  {
    hide OneWriter, OutsAsComputed, Accepts, Done, Planned;
    if orders == [] {
      SwitchedAsComputed(r.p, r.forward, r.outputs, r.two);
    } else {
      r.Before(orders);
      var n := |orders| - 1;
      CourseAsComputed(r, orders[..n]);
      DoneAsComputed(r.Now(orders[..n]), orders[n], r.forward, r.two);
      SwitchedAsComputed(Done(r.Now(orders[..n]), orders[n], r.forward, r.two), r.forward, r.outputs, r.two);
    }
  }

  lemma SwitchedAsComputed(p: Progress, forward: map<NodeId, Node>, outputs: seq<ValueId>, two: bool)
    requires OutsAsComputed(p, forward)
    ensures OutsAsComputed(Switched(p, outputs, two), forward)
  {
    var q := Switched(p, outputs, two);
    forall n, i | n in q.last && n in forward && 0 <= i < |forward[n].outputs| && forward[n].outputs[i] in q.staged
      ensures OutStaged(q, n, forward[n].outputs[i], i)
    {
      assert OutStaged(p, n, forward[n].outputs[i], i);
    }
  }

  lemma PlacesOutsStaged(p: Progress, n: NodeId, forward: map<NodeId, Node>, two: bool)
    requires May(p, n, forward) && OutsAsComputed(p, forward)
    ensures OutsStaged(PlacesOf(p, n, forward, two), forward[n])
  {
    hide Planned;
    OperandsStaged(p, n, forward);
    var node, t := forward[n], PlacesOf(p, n, forward, two);
    forall i | 0 <= i < |node.outputs|
      ensures t.nowOuts[i] == if p.last[n] == Original then Forward(node.outputs[i]) else t.ownOuts[i]
    {
      assert OutStaged(p, n, node.outputs[i], i);
    }
    if p.last[n] == Recomputed { RedoSize(p, n, forward); }
  }

  lemma RedoSize(p: Progress, n: NodeId, forward: map<NodeId, Node>)
    requires May(p, n, forward) && p.last[n] == Recomputed
    ensures |p.redos[RedoOf(p.redos, n)].inputs| == |forward[n].inputs|
  {
    hide Denotes;
  }

  // ---- along a list of orders ----

  /** All that is needed of the beginning. */
  ghost predicate Starts(r: Run, env: Env, seeds: Numbers) {
    && OneWriter(r.forward) && OutsAsComputed(r.p, r.forward) && r.g.Keys == seeds.Keys
    && (forall h :: h in seeds ==> h.Forward?)
    && forall n :: n in r.forward ==> Ready(env, r.forward[n])
  }

  /** The gradients after the orders. */
  ghost function NumberFlow(r: Run, env: Env, seeds: Numbers, orders: seq<Order>): Numbers
    requires r.Goes(orders) && Starts(r, env, seeds)
    decreases |orders|
  {
    if orders == [] then seeds else
      r.Before(orders);
      var n := |orders| - 1;
      match orders[n]
      case ComputeBackward(id, _) =>
        PlacesFit(r.Now(orders[..n]), id, r.forward, r.two);
        AfterNumbers(env, NumberFlow(r, env, seeds, orders[..n]), PlacesOf(r.Now(orders[..n]), id, r.forward, r.two),
                     r.forward[id])
      case _ => NumberFlow(r, env, seeds, orders[..n])
  }

  /** The nodes that are differentiated, in the order given. */
  function BackIds(orders: seq<Order>): seq<NodeId>
    decreases |orders|
  {
    if orders == [] then [] else
      var n := |orders| - 1;
      BackIds(orders[..n]) + if orders[n].ComputeBackward? then [orders[n].node] else []
  }

  lemma {:induction false} BackIdsKnown(orders: seq<Order>, forward: map<NodeId, Node>)
    requires forall k :: 0 <= k < |orders| ==> Known(orders[k], forward)
    ensures forall n :: n in BackIds(orders) ==> n in forward
    decreases |orders|
  {
    if orders != [] { BackIdsKnown(orders[..|orders| - 1], forward); }
  }

  ghost function NodesAt(forward: map<NodeId, Node>, ids: seq<NodeId>): seq<Node>
    requires forall n :: n in ids ==> n in forward
  {
    G.NodesOf(Snapshot(forward, map[], map[], {}), ids)
  }

  ghost function SeedOf(seeds: Numbers): ValueId -> real {
    (v: ValueId) => Num(seeds, Forward(v))
  }

  /** The gradients are those of reverse mode through the nodes differentiated so far. */
  ghost predicate ReverseMode(r: Run, env: Env, seeds: Numbers, orders: seq<Order>)
    requires r.Goes(orders) && Starts(r, env, seeds)
  {
    && (forall n :: n in BackIds(orders) ==> n in r.forward)
    && var g, nodes := NumberFlow(r, env, seeds, orders), NodesAt(r.forward, BackIds(orders));
      forall v: ValueId :: Num(g, Forward(v)) == RM.Backward(env, nodes, SeedOf(seeds), v)
  }

  /** While gradients are current, the orders compute what reverse mode computes. */
  lemma {:induction false} OrdersAreReverseMode(r: Run, env: Env, seeds: Numbers, orders: seq<Order>, redos: seq<Redo>)
    requires r.Goes(orders) && Starts(r, env, seeds) && CurrentAlong(r, orders) && r.Now(orders).redos <= redos
    ensures TellsNumbers(redos, r.forward, TrackOf(r, orders), NumberFlow(r, env, seeds, orders))
    ensures ReverseMode(r, env, seeds, orders)
    decreases |orders|
  {
    hide r.Goes, r.Now, AfterNumbers, Tracked, AllCurrent, May, Planned, PlacesOf, OneWriter, OutsAsComputed, Ready;
    hide TellsNumbers, Stands, OneEach, Sized, OutsStaged, Step, RM.Backward;
    if orders == [] {
      NothingYet(r, env, seeds, redos);
    } else {
      r.Before(orders);
      RedosGrow(r, orders);
      var n := |orders| - 1;
      OrdersAreReverseMode(r, env, seeds, orders[..n], redos);
      if orders[n].ComputeBackward? {
        LastIsBackward(r, env, seeds, orders, redos);
      } else {
        assert BackIds(orders) == BackIds(orders[..n]);
      }
    }
  }

  lemma NothingYet(r: Run, env: Env, seeds: Numbers, redos: seq<Redo>)
    requires r.Goes([]) && Starts(r, env, seeds)
    ensures TellsNumbers(redos, r.forward, TrackOf(r, []), NumberFlow(r, env, seeds, []))
    ensures ReverseMode(r, env, seeds, [])
  {
  }

  lemma LastIsBackward(r: Run, env: Env, seeds: Numbers, orders: seq<Order>, redos: seq<Redo>)
    requires orders != [] && r.Goes(orders) && r.Goes(orders[..|orders| - 1]) && orders[|orders| - 1].ComputeBackward?
    requires Starts(r, env, seeds) && CurrentAlong(r, orders) && r.Now(orders[..|orders| - 1]).redos <= redos
    requires May(r.Now(orders[..|orders| - 1]), orders[|orders| - 1].node, r.forward)
    requires
      var before := orders[..|orders| - 1];
      TellsNumbers(redos, r.forward, TrackOf(r, before), NumberFlow(r, env, seeds, before)) && ReverseMode(r, env,
                   seeds, before)
    ensures TellsNumbers(redos, r.forward, TrackOf(r, orders), NumberFlow(r, env, seeds, orders))
    ensures ReverseMode(r, env, seeds, orders)
  {
    hide r.Goes, r.Now, AfterNumbers, Tracked, AllCurrent, Planned, PlacesOf, OneWriter, OutsAsComputed, TellsNumbers;
    hide Stands, OneEach, Sized, OutsStaged, RM.Backward, AllStand, Matched;
    var n := |orders| - 1;
    var id := orders[n].node;
    var p := r.Now(orders[..n]);
    var t, node, ids := PlacesOf(p, id, r.forward, r.two), r.forward[id], BackIds(orders[..n]);
    PlacesArePlaced(p, id, r.forward, r.two, redos);
    CourseAsComputed(r, orders[..n]);
    PlacesOutsStaged(p, id, r.forward, r.two);
    var k, g := TrackOf(r, orders[..n]), NumberFlow(r, env, seeds, orders[..n]);
    OrderTellsNumbers(redos, r.forward, k, env, g, t, node);
    CurrentIsMatched(redos, r.forward, k, g, t, node);
    assert NodesAt(r.forward, ids + [id]) == NodesAt(r.forward, ids) + [node];
    forall v: ValueId
      ensures Num(AfterNumbers(env, g, t, node), Forward(v)) ==
        RM.Backward(env, NodesAt(r.forward, ids + [id]), SeedOf(seeds), v)
    {
      OrderSteps(env, g, t, node, v);
      RM.BackwardMore(env, NodesAt(r.forward, ids), node, SeedOf(seeds), v);
    }
  }

  // ---- the adjoint ----

  /** Orders that differentiate the nodes between `xs` and `ys`, each once and after its readers,
      make the gradients of `xs` the adjoint of the tangents. */
  lemma OrdersAreAdjoint(r: Run, env: Env, seeds: Numbers, orders: seq<Order>, g: Snapshot, inputs: seq<ValueId>,
                         xs: seq<ValueId>, ys: seq<ValueId>, needed: set<NodeId>, tan: ValueId -> Number, bound: nat)
    requires r.Goes(orders) && Starts(r, env, seeds) && CurrentAlong(r, orders) && r.forward == g.node
    requires G.Complete(g, inputs) && G.Chosen(g, xs, ys, needed, BackIds(orders)) && G.Independent(g, xs)
    requires Distinct(ys)
    requires forall h :: h in seeds ==> h.value in ys
    requires NodesBelow(g.node, bound) && B.AllIn(xs, bound) && B.AllIn(ys, bound) && G.Tangents(g, xs, env, tan)
    ensures RM.Inner(ys, SeedOf(seeds), tan)
      == RM.Inner(xs, (v: ValueId) => Num(NumberFlow(r, env, seeds, orders), Forward(v)), tan)
  {
    hide r.Goes, r.Now, Starts, CurrentAlong, G.Chosen, G.Independent, G.Tangents, NodesBelow, RM.Inner, RM.Backward,
      TellsNumbers;
    var order := FM.OrderExists(g, inputs);
    FM.CompleteParts(g, inputs);
    OrdersAreReverseMode(r, env, seeds, orders, r.Now(orders).redos);
    var ids := BackIds(orders);
    SameNodes(g, ids);
    G.ChosenIsAdjoint(g, inputs, xs, ys, order, needed, ids, env, SeedOf(seeds), tan, bound);
    G.InnerEqual(xs, (v: ValueId) => RM.Backward(env, G.NodesOf(g, ids), SeedOf(seeds), v),
                 (v: ValueId) => Num(NumberFlow(r, env, seeds, orders), Forward(v)), tan);
  }

  lemma SameNodes(g: Snapshot, ids: seq<NodeId>)
    requires forall n :: n in ids ==> n in g.node
    ensures NodesAt(g.node, ids) == G.NodesOf(g, ids)
  {
  }

  /** And that is what GenerateGradientNodesImpl computes, in one graph or two: in each joint run of
      the graphs that it leaves behind, the gradients are those of the orders. */
  lemma OrdersAgreeWithPass(kernels: Kernels, r: Run, env: Env, seeds: Numbers, orders: seq<Order>, g: Snapshot,
                            inputs: seq<ValueId>, xs: seq<ValueId>, ys: seq<ValueId>, needed: set<NodeId>,
                            forward: map<NodeId, Node>, backward: map<NodeId, Node>, feeds: GG.Feeds, first: Grads,
                            grad: Grads, bound: nat, x: ValueId)
    requires r.Goes(orders) && Starts(r, env, seeds) && CurrentAlong(r, orders) && r.forward == g.node
    requires G.Complete(g, inputs) && G.Fitting(g) && G.Chosen(g, xs, ys, needed, BackIds(orders))
    requires G.Independent(g, xs)
    requires Distinct(ys) && (forall h :: h in seeds ==> h.value in ys) && FM.Modelled(g, xs) && x in xs
    requires NodesBelow(g.node, bound) && B.AllIn(xs, bound) && B.AllIn(ys, bound) && B.Within(g.node, forward)
    requires GG.Backpropagates(forward, backward, feeds, g, first, grad, xs, ys)
    requires Solves(kernels, forward, env) && Solves(kernels, backward, env) && GG.Fed(env, feeds)
    requires forall y :: y in ys ==> GradOf(env, first, y) == Num(seeds, Forward(y))
    ensures GradOf(env, grad, x) == Num(NumberFlow(r, env, seeds, orders), Forward(x))
  {
    hide r.Goes, r.Now, Starts, CurrentAlong, G.Chosen, G.Tangents, NodesBelow, RM.Inner, Solves, G.Fitting,
      FM.Modelled, B.Within;
    hide G.Reachable, GG.Fed, g.DefUse, g.Ssa;
    var order := FM.OrderExists(g, inputs);
    FM.CompleteParts(g, inputs);
    B.SolvesWithin(kernels, g.node, forward, env);
    var here, pass := (v: ValueId) => Num(NumberFlow(r, env, seeds, orders), Forward(v)), G.Gradients(env, grad);
    forall tan: ValueId -> Number | G.Tangents(g, xs, env, tan)
      ensures RM.Inner(ys, SeedOf(seeds), tan) == RM.Inner(xs, here, tan)
      ensures RM.Inner(ys, SeedOf(seeds), tan) == RM.Inner(xs, pass, tan)
    {
      OrdersAreAdjoint(r, env, seeds, orders, g, inputs, xs, ys, needed, tan, bound);
      SeedsAgree(env, seeds, first, ys, tan);
    }
    FM.GradientsUnique(kernels, g, inputs, xs, ys, env, order, SeedOf(seeds), here, pass, x);
  }

  lemma SeedsAgree(env: Env, seeds: Numbers, first: Grads, ys: seq<ValueId>, tan: ValueId -> Number)
    requires forall y :: y in ys ==> GradOf(env, first, y) == Num(seeds, Forward(y))
    ensures RM.Inner(ys, SeedOf(seeds), tan) == RM.Inner(ys, G.Gradients(env, first), tan)
  {
    RM.OverEqual(ys, (v: ValueId) => SeedOf(seeds)(v) * tan(v).du,
                 (v: ValueId) => G.Gradients(env, first)(v) * tan(v).du);
  }
}
