/** compiler/gradient_with_order.cc:357-421: where gradients are kept while nodes are differentiated
    in an order given from outside.  A gradient is told by the nodes that have contributed to it. */
module OrderGradients {
  import opened Ir
  import G = GraphIr
  import opened Dual
  import opened OrderPlan

  /** A value that may have a gradient: a forward value, its placeholder, an output of a recomputation. */
  datatype Holder = Forward(value: ValueId) | Placeholder(value: ValueId) | Copied(redo: nat, index: nat)

  type Held = map<Holder, multiset<NodeId>>

  function HolderOf(s: Source, kept: bool): Holder {
    match s
    case Itself(v) => if kept then Placeholder(v) else Forward(v)
    case Output(k, i) => Copied(k, i)
  }

  /** The contributions at `h`; none without a gradient. */
  function At(g: Held, h: Holder): multiset<NodeId> {
    if h in g then g[h] else multiset{}
  }

  /** `to` gets the gradient of `from`, or none. */
  function Transfer<T>(g: map<Holder, T>, from: Holder, to: Holder): map<Holder, T> {
    if from in g then g[to := g[from]] else g - {to}
  }

  /** Gradients of forward values go to what stands for them. */
  function Loaded<T>(g: map<Holder, T>, hs: seq<Holder>, vs: seq<ValueId>): map<Holder, T>
    requires |hs| == |vs|
    decreases |hs|
  {
    if hs == [] then g else
      var k := |hs| - 1;
      Transfer(Loaded(g, hs[..k], vs[..k]), Forward(vs[k]), hs[k])
  }

  /** `n` contributes to each of `hs`. */
  function Handed(g: Held, hs: seq<Holder>, n: NodeId): Held
    decreases |hs|
  {
    if hs == [] then g else
      var before, h := Handed(g, hs[..|hs| - 1], n), hs[|hs| - 1];
      before[h := At(before, h) + multiset{n}]
  }

  /** And back to the forward values. */
  function Returned<T>(g: map<Holder, T>, hs: seq<Holder>, vs: seq<ValueId>): map<Holder, T>
    requires |hs| == |vs|
    decreases |hs|
  {
    if hs == [] then g else
      var k := |hs| - 1;
      Transfer(Returned(g, hs[..k], vs[..k]), hs[k], Forward(vs[k]))
  }

  /** One holder stands for one value, and no forward value for another. */
  ghost predicate Stands(hs: seq<Holder>, vs: seq<ValueId>) {
    && |hs| == |vs|
    && (forall i :: 0 <= i < |hs| && hs[i].Forward? ==> hs[i].value == vs[i])
    && (forall i, k :: 0 <= i < |hs| && 0 <= k < |hs| && hs[i] == hs[k] ==> vs[i] == vs[k])
  }

  /** A value has one holder. */
  ghost predicate OneEach(hs: seq<Holder>, vs: seq<ValueId>) {
    |hs| == |vs| && forall i, k :: 0 <= i < |hs| && 0 <= k < |hs| && vs[i] == vs[k] ==> hs[i] == hs[k]
  }

  /** Both have the same gradient, or neither has one. */
  ghost predicate Alike<T>(g: map<Holder, T>, h: Holder, g': map<Holder, T>, h': Holder) {
    (h in g <==> h' in g') && (h in g ==> g[h] == g'[h'])
  }

  lemma {:induction false} LoadedAt<T>(g: map<Holder, T>, hs: seq<Holder>, vs: seq<ValueId>)
    requires Stands(hs, vs)
    ensures forall h :: h !in hs ==> Alike(g, h, Loaded(g, hs, vs), h)
    ensures forall v: ValueId :: Alike(g, Forward(v), Loaded(g, hs, vs), Forward(v))
    ensures forall i :: 0 <= i < |hs| ==> Alike(g, Forward(vs[i]), Loaded(g, hs, vs), hs[i])
    decreases |hs|
  {
    if hs != [] {
      var k := |hs| - 1;
      LoadedAt(g, hs[..k], vs[..k]);
      var before, after := Loaded(g, hs[..k], vs[..k]), Loaded(g, hs, vs);
      assert hs == hs[..k] + [hs[k]];
      assert Alike(g, Forward(vs[k]), before, Forward(vs[k]));
      forall i | 0 <= i < |hs| ensures Alike(g, Forward(vs[i]), after, hs[i]) {
        if hs[i] != hs[k] { assert hs[..k][i] == hs[i] && Alike(g, Forward(vs[i]), before, hs[i]); }
      }
      forall v: ValueId ensures Alike(g, Forward(v), after, Forward(v)) {
        assert Alike(g, Forward(v), before, Forward(v));
      }
    }
  }

  /** `n` contributes as often as `h` is listed. */
  lemma {:induction false} HandedAt(g: Held, hs: seq<Holder>, n: NodeId, h: Holder)
    ensures At(Handed(g, hs, n), h) == At(g, h) + Times(n, multiset(hs)[h])
    ensures h !in hs ==> Alike(g, h, Handed(g, hs, n), h)
    ensures h in hs ==> h in Handed(g, hs, n)
    decreases |hs|
  {
    hide Handed, At, Times, Alike;
    if hs == [] {
      HandedNone(g, n, h);
    } else {
      var k := |hs| - 1;
      HandedAt(g, hs[..k], n, h);
      OneMoreHolder(hs, h);
      OneMoreTime(At(g, h), n, multiset(hs[..k])[h]);
      HandedOnce(g, hs, n, h);
      AlikeTrans(g, Handed(g, hs[..k], n), Handed(g, hs, n), h);
    }
  }

  function Times(n: NodeId, k: nat): multiset<NodeId> {
    multiset{}[n := k]
  }

  lemma HandedNone(g: Held, n: NodeId, h: Holder)
    ensures At(Handed(g, [], n), h) == At(g, h) + Times(n, 0) && Alike(g, h, Handed(g, [], n), h)
  {
    assert Times(n, 0) == multiset{};
  }

  lemma OneMoreHolder(hs: seq<Holder>, h: Holder)
    requires hs != []
    ensures
      var k := |hs| - 1;
      && multiset(hs)[h] == multiset(hs[..k])[h] + (if h == hs[k] then 1 else 0)
      && (h in hs <==> h in hs[..k] || h == hs[k])
  {
    var k := |hs| - 1;
    assert hs == hs[..k] + [hs[k]];
  }

  lemma OneMoreTime(a: multiset<NodeId>, n: NodeId, k: nat)
    ensures a + Times(n, k) + multiset{n} == a + Times(n, k + 1)
  {
    assert Times(n, k + 1) == Times(n, k) + multiset{n};
  }

  lemma AlikeTrans(a: Held, b: Held, c: Held, h: Holder)
    ensures Alike(a, h, b, h) && Alike(b, h, c, h) ==> Alike(a, h, c, h)
  {
  }

  lemma AlikeAt(a: Held, h: Holder, b: Held, h': Holder)
    requires Alike(a, h, b, h')
    ensures At(a, h) == At(b, h')
  {
  }

  lemma HandedOnce(g: Held, hs: seq<Holder>, n: NodeId, h: Holder)
    requires hs != []
    ensures
      var k := |hs| - 1;
      var before := Handed(g, hs[..k], n);
      && At(Handed(g, hs, n), h) == (if h == hs[k] then At(before, h) + multiset{n} else At(before, h))
      && (h != hs[k] ==> Alike(before, h, Handed(g, hs, n), h)) && hs[k] in Handed(g, hs, n)
      && (h in before ==> h in Handed(g, hs, n))
  {
  }

  lemma {:induction false} ReturnedAt<T>(g: map<Holder, T>, hs: seq<Holder>, vs: seq<ValueId>)
    requires Stands(hs, vs) && OneEach(hs, vs)
    ensures forall v: ValueId :: v !in vs ==> Alike(g, Forward(v), Returned(g, hs, vs), Forward(v))
    ensures forall h: Holder :: !h.Forward? ==> Alike(g, h, Returned(g, hs, vs), h)
    ensures forall i :: 0 <= i < |hs| ==> Alike(g, hs[i], Returned(g, hs, vs), Forward(vs[i]))
    decreases |hs|
  {
    if hs != [] {
      var k := |hs| - 1;
      ReturnedAt(g, hs[..k], vs[..k]);
      var before, after := Returned(g, hs[..k], vs[..k]), Returned(g, hs, vs);
      assert vs == vs[..k] + [vs[k]];
      HeldStill(g, hs, vs, k);
      forall i | 0 <= i < |hs| ensures Alike(g, hs[i], after, Forward(vs[i])) {
        if vs[i] != vs[k] { assert vs[..k][i] == vs[i] && Alike(g, hs[i], before, Forward(vs[i])); }
      }
    }
  }

  lemma HeldStill<T>(g: map<Holder, T>, hs: seq<Holder>, vs: seq<ValueId>, k: nat)
    requires Stands(hs, vs) && OneEach(hs, vs) && k < |hs|
    requires forall v: ValueId :: v !in vs[..k] ==> Alike(g, Forward(v), Returned(g, hs[..k], vs[..k]), Forward(v))
    requires forall h: Holder :: !h.Forward? ==> Alike(g, h, Returned(g, hs[..k], vs[..k]), h)
    requires forall i :: 0 <= i < k ==> Alike(g, hs[..k][i], Returned(g, hs[..k], vs[..k]), Forward(vs[..k][i]))
    ensures Alike(g, hs[k], Returned(g, hs[..k], vs[..k]), hs[k])
  {
    if hs[k].Forward? && hs[k].value in vs[..k] {
      var i :| 0 <= i < k && vs[..k][i] == hs[k].value;
      assert hs[..k][i] == hs[k];
    }
  }

  // ---- one backward order ----

  /** The holders that a backward order uses: for a recomputed node those of its inputs and outputs;
      those of what is staged for them now. */
  datatype Places = Places(own: seq<Holder>, ownOuts: seq<Holder>, now: seq<Holder>, nowOuts: seq<Holder>)

  ghost predicate Sized(t: Places, n: Node) {
    (|t.own + t.ownOuts| == |Operands(n)| || t.own + t.ownOuts == []) && |t.now| == |n.inputs|
  }

  ghost function Collected<T>(g: map<Holder, T>, t: Places, n: Node): map<Holder, T>
    requires Sized(t, n)
  {
    if t.own + t.ownOuts == [] then g else Loaded(g, t.own + t.ownOuts, Operands(n))
  }

  /** A node hands on if its operator has a gradient and its outputs have gradients. */
  ghost predicate Active(have: set<Holder>, t: Places, n: Node) {
    Differentiable(n.op) && t.nowOuts != [] && forall i :: 0 <= i < |t.nowOuts| ==> t.nowOuts[i] in have
  }

  /** Gradients are copied to the recomputed node, the node contributes where its inputs are staged,
      and the forward values get the gradients from there. */
  ghost function After(g: Held, t: Places, n: Node, id: NodeId): Held
    requires Sized(t, n)
  {
    var g1 := Collected(g, t, n);
    Returned(if Active(g1.Keys, t, n) then Handed(g1, t.now, id) else g1, t.now, n.inputs)
  }

  ghost predicate Fit(t: Places, n: Node) {
    && Sized(t, n) && (t.own + t.ownOuts == [] || Stands(t.own + t.ownOuts, Operands(n)))
    && Stands(t.now, n.inputs) && OneEach(t.now, n.inputs)
  }

  /** What the order should add to the gradient of `v`. */
  ghost function Share(g: Held, t: Places, n: Node, id: NodeId, v: ValueId): multiset<NodeId>
    requires Sized(t, n)
  {
    if Active(Collected(g, t, n).Keys, t, n) then Times(id, multiset(n.inputs)[v]) else multiset{}
  }

  /** Where input `i` is staged its gradient is, once collected, that of the forward value. */
  ghost predicate InSyncAt(g: Held, t: Places, n: Node, i: nat)
    requires Fit(t, n) && i < |n.inputs|
  {
    At(Collected(g, t, n), t.now[i]) == At(g, Forward(n.inputs[i]))
  }

  lemma CountsAgree(hs: seq<Holder>, vs: seq<ValueId>, i: nat)
    requires Stands(hs, vs) && OneEach(hs, vs) && i < |hs|
    ensures multiset(hs)[hs[i]] == multiset(vs)[vs[i]]
  {
    CountsAgreeFor(hs, vs, hs[i], vs[i]);
  }

  lemma {:induction false} CountsAgreeFor(hs: seq<Holder>, vs: seq<ValueId>, h: Holder, v: ValueId)
    requires |hs| == |vs| && forall i :: 0 <= i < |hs| ==> (hs[i] == h <==> vs[i] == v)
    ensures multiset(hs)[h] == multiset(vs)[v]
    decreases |hs|
  {
    if hs != [] {
      var k := |hs| - 1;
      CountsAgreeFor(hs[..k], vs[..k], h, v);
      assert hs == hs[..k] + [hs[k]] && vs == vs[..k] + [vs[k]];
    }
  }

  lemma CollectedAt<T>(g: map<Holder, T>, t: Places, n: Node)
    requires Fit(t, n)
    ensures forall v: ValueId :: Alike(g, Forward(v), Collected(g, t, n), Forward(v))
    ensures forall i :: 0 <= i < |t.own + t.ownOuts| ==>
      Alike(g, Forward(Operands(n)[i]), Collected(g, t, n), (t.own + t.ownOuts)[i])
  {
    if t.own + t.ownOuts != [] { LoadedAt(g, t.own + t.ownOuts, Operands(n)); }
  }

  /** The order is right about an input exactly when its holder is in sync. */
  lemma RightExactlyInSync(g: Held, t: Places, n: Node, id: NodeId, i: nat)
    requires Fit(t, n) && i < |n.inputs|
    ensures At(After(g, t, n, id), Forward(n.inputs[i])) ==
      At(g, Forward(n.inputs[i])) + Share(g, t, n, id, n.inputs[i])
      <==> InSyncAt(g, t, n, i)
  {
    hide Collected, Loaded, Handed, Returned, Active, Stands, OneEach, Alike, Times;
    var g1 := Collected(g, t, n);
    var g2 := if Active(g1.Keys, t, n) then Handed(g1, t.now, id) else g1;
    FitParts(t, n);
    ReturnedAt(g2, t.now, n.inputs);
    HandedAt(g1, t.now, id, t.now[i]);
    CountsAgree(t.now, n.inputs, i);
    AlikeAt(g2, t.now[i], Returned(g2, t.now, n.inputs), Forward(n.inputs[i]));
    var here, due, more := At(g1, t.now[i]), At(g, Forward(n.inputs[i])), Share(g, t, n, id, n.inputs[i]);
    assert At(After(g, t, n, id), Forward(n.inputs[i])) == At(g2, t.now[i]) == here + more;
    Cancelled(here, due, more);
  }

  lemma FitParts(t: Places, n: Node)
    requires Fit(t, n)
    ensures |t.now| == |n.inputs| && Stands(t.now, n.inputs) && OneEach(t.now, n.inputs)
  {
  }

  lemma Cancelled(a: multiset<NodeId>, b: multiset<NodeId>, c: multiset<NodeId>)
    ensures a + c == b + c <==> a == b
  {
    if a + c == b + c {
      forall x ensures a[x] == b[x] { assert (a + c)[x] == (b + c)[x]; }
      assert a == b;
    }
  }

  /** And leaves the gradients of all other forward values alone. */
  lemma OthersKept(g: Held, t: Places, n: Node, id: NodeId, v: ValueId)
    requires Fit(t, n) && v !in n.inputs
    ensures At(After(g, t, n, id), Forward(v)) == At(g, Forward(v)) && Share(g, t, n, id, v) == multiset{}
  {
    hide Loaded, Returned, Active, Stands, OneEach;
    CollectedAt(g, t, n);
    var g1 := Collected(g, t, n);
    var g2 := if Active(g1.Keys, t, n) then Handed(g1, t.now, id) else g1;
    FitParts(t, n);
    ReturnedAt(g2, t.now, n.inputs);
    HandedAt(g1, t.now, id, Forward(v));
    NotStaged(t, n, v);
  }

  lemma NotStaged(t: Places, n: Node, v: ValueId)
    requires Fit(t, n) && v !in n.inputs
    ensures Forward(v) !in t.now
  {
  }

  ghost predicate InSync(g: Held, t: Places, n: Node)
    requires Fit(t, n)
  {
    forall i :: 0 <= i < |n.inputs| ==> InSyncAt(g, t, n, i)
  }

  ghost predicate Right(g: Held, g': Held, t: Places, n: Node, id: NodeId)
    requires Fit(t, n)
  {
    forall v: ValueId :: At(g', Forward(v)) == At(g, Forward(v)) + Share(g, t, n, id, v)
  }

  lemma OrderIsRight(g: Held, t: Places, n: Node, id: NodeId)
    requires Fit(t, n)
    ensures Right(g, After(g, t, n, id), t, n, id) <==> InSync(g, t, n)
  {
    hide After, Share, InSyncAt, Stands, OneEach, Sized;
    if InSync(g, t, n) {
      forall v: ValueId ensures At(After(g, t, n, id), Forward(v)) == At(g, Forward(v)) + Share(g, t, n, id, v) {
        if v in n.inputs {
          var i :| 0 <= i < |n.inputs| && n.inputs[i] == v;
          RightExactlyInSync(g, t, n, id, i);
        } else {
          OthersKept(g, t, n, id, v);
        }
      }
    }
    if Right(g, After(g, t, n, id), t, n, id) {
      forall i | 0 <= i < |n.inputs| ensures InSyncAt(g, t, n, i) { RightExactlyInSync(g, t, n, id, i); }
    }
  }

  /** The node was computed last from what is staged now. */
  ghost predicate Steady(t: Places, n: Node) {
    && |t.now| == |n.inputs|
    && (if t.own + t.ownOuts == [] then forall i :: 0 <= i < |n.inputs| ==> t.now[i] == Forward(n.inputs[i]) else
          t.now == t.own)
  }

  lemma SteadyIsInSync(g: Held, t: Places, n: Node)
    requires Fit(t, n) && Steady(t, n)
    ensures InSync(g, t, n)
  {
    CollectedAt(g, t, n);
    forall i | 0 <= i < |n.inputs| ensures InSyncAt(g, t, n, i) {
      if t.own + t.ownOuts != [] { assert (t.own + t.ownOuts)[i] == t.own[i] && Operands(n)[i] == n.inputs[i]; }
    }
  }

  // ---- all orders ----

  /** What is staged for a value is the value or an output of a recomputation of its node. */
  ghost predicate Denotes(redos: seq<Redo>, forward: map<NodeId, Node>, s: Source, v: ValueId) {
    match s
    case Itself(w) => w == v
    case Output(k, i) =>
      k < |redos| && redos[k].node in forward && i < |forward[redos[k].node].outputs|
        && forward[redos[k].node].outputs[i] == v
  }

  ghost predicate AllDenote(redos: seq<Redo>, forward: map<NodeId, Node>, ss: seq<Source>, vs: seq<ValueId>) {
    |ss| == |vs| && forall i :: 0 <= i < |vs| ==> Denotes(redos, forward, ss[i], vs[i])
  }

  ghost predicate Planned(p: Progress, forward: map<NodeId, Node>) {
    && (forall v :: v in p.staged ==> Denotes(p.redos, forward, p.staged[v], v))
    && (forall k :: 0 <= k < |p.redos| ==>
          p.redos[k].node in forward && AllDenote(p.redos, forward, p.redos[k].inputs, forward[p.redos[k].node].inputs))
    && (forall n :: n in p.last && p.last[n] == Recomputed ==> exists k :: 0 <= k < |p.redos| && p.redos[k].node == n)
  }

  /** The last recomputation of `n`. */
  function RedoOf(redos: seq<Redo>, n: NodeId): (k: nat)
    requires exists k :: 0 <= k < |redos| && redos[k].node == n
    ensures k < |redos| && redos[k].node == n && forall j :: k < j < |redos| ==> redos[j].node != n
  {
    if redos[|redos| - 1].node == n then |redos| - 1 else RedoOf(redos[..|redos| - 1], n)
  }

  function Holders(ss: seq<Source>, kept: bool): (hs: seq<Holder>)
    ensures |hs| == |ss| && forall i :: 0 <= i < |ss| ==> hs[i] == HolderOf(ss[i], kept)
  {
    seq(|ss|, i requires 0 <= i < |ss| => HolderOf(ss[i], kept))
  }

  function CopiesOf(redo: nat, count: nat): seq<Holder> {
    seq(count, i requires 0 <= i < count => Copied(redo, i))
  }

  function OutputsOf(redo: nat, count: nat): seq<Source> {
    seq(count, i requires 0 <= i < count => Output(redo, i))
  }

  ghost predicate May(p: Progress, n: NodeId, forward: map<NodeId, Node>) {
    && Planned(p, forward) && n in forward && n in p.last
    && forall i :: 0 <= i < |Operands(forward[n])| ==> Operands(forward[n])[i] in p.staged
  }

  /** Where the gradients of a node go; with two graphs, what a recomputed node reads of the forward
      graph are placeholders. */
  ghost function PlacesOf(p: Progress, n: NodeId, forward: map<NodeId, Node>, two: bool): Places
    requires May(p, n, forward)
  {
    var node, copied := forward[n], p.last[n] == Recomputed;
    var kept := copied && two;
    OperandsStaged(p, n, forward);
    var now, nowOuts := Holders(Sources(p.staged, node.inputs), kept), Holders(Sources(p.staged, node.outputs), kept);
    if copied then
      var j := RedoOf(p.redos, n);
      Places(Holders(p.redos[j].inputs, kept), CopiesOf(j, |node.outputs|), now, nowOuts)
    else Places([], [], now, nowOuts)
  }

  lemma OperandsStaged(p: Progress, n: NodeId, forward: map<NodeId, Node>)
    requires May(p, n, forward)
    ensures forall i :: 0 <= i < |forward[n].inputs| ==> forward[n].inputs[i] in p.staged
    ensures forall i :: 0 <= i < |forward[n].outputs| ==> forward[n].outputs[i] in p.staged
  {
    hide Planned;
    var node := forward[n];
    forall i | 0 <= i < |node.inputs| ensures node.inputs[i] in p.staged { assert Operands(node)[i] == node.inputs[i]; }
    forall i | 0 <= i < |node.outputs|
      ensures node.outputs[i] in p.staged
    {
      assert Operands(node)[|node.inputs| + i] == node.outputs[i];
    }
  }

  lemma HoldersStand(redos: seq<Redo>, forward: map<NodeId, Node>, ss: seq<Source>, vs: seq<ValueId>, kept: bool)
    requires AllDenote(redos, forward, ss, vs)
    ensures Stands(Holders(ss, kept), vs)
  {
    var hs := Holders(ss, kept);
    forall i | 0 <= i < |hs| && hs[i].Forward?
      ensures hs[i].value == vs[i]
    {
      assert Denotes(redos, forward, ss[i], vs[i]);
    }
    forall i, k | 0 <= i < |hs| && 0 <= k < |hs| && hs[i] == hs[k] ensures vs[i] == vs[k] {
      assert Denotes(redos, forward, ss[i], vs[i]) && Denotes(redos, forward, ss[k], vs[k]);
    }
  }

  lemma PlacesFit(p: Progress, n: NodeId, forward: map<NodeId, Node>, two: bool)
    requires May(p, n, forward)
    ensures Fit(PlacesOf(p, n, forward, two), forward[n])
  {
    hide Stands, Denotes;
    OperandsStaged(p, n, forward);
    var node, t, kept := forward[n], PlacesOf(p, n, forward, two), p.last[n] == Recomputed && two;
    var ss := Sources(p.staged, node.inputs);
    HoldersStand(p.redos, forward, ss, node.inputs, kept);
    NowIsOneEach(p.staged, node.inputs, kept);
    if p.last[n] == Recomputed {
      var j := RedoOf(p.redos, n);
      CopyStands(p.redos, forward, j, kept);
    }
  }

  lemma NowIsOneEach(staged: map<ValueId, Source>, vs: seq<ValueId>, kept: bool)
    requires forall i :: 0 <= i < |vs| ==> vs[i] in staged
    ensures OneEach(Holders(Sources(staged, vs), kept), vs)
  {
  }

  lemma CopyStands(redos: seq<Redo>, forward: map<NodeId, Node>, j: nat, kept: bool)
    requires j < |redos| && redos[j].node in forward
    requires AllDenote(redos, forward, redos[j].inputs, forward[redos[j].node].inputs)
    ensures
      var node := forward[redos[j].node];
      Stands(Holders(redos[j].inputs, kept) + CopiesOf(j, |node.outputs|), Operands(node))
  {
    hide Stands;
    var node := forward[redos[j].node];
    var ss := redos[j].inputs + OutputsOf(j, |node.outputs|);
    forall i | 0 <= i < |ss| ensures Denotes(redos, forward, ss[i], Operands(node)[i]) {
      if i < |node.inputs| { assert Denotes(redos, forward, redos[j].inputs[i], node.inputs[i]); }
    }
    HoldersStand(redos, forward, ss, Operands(node), kept);
    assert Holders(ss, kept) == Holders(redos[j].inputs, kept) + CopiesOf(j, |node.outputs|);
  }

  lemma DoneIsPlanned(p: Progress, order: Order, forward: map<NodeId, Node>, two: bool)
    requires Known(order, forward) && Accepts(p, order, forward, two) && Planned(p, forward)
    ensures Planned(Done(p, order, forward, two), forward)
  {
    if order.ComputeForward? && order.node in p.scheduled {
      AgainIsPlanned(p, order.node, forward, two);
    }
  }

  lemma AgainIsPlanned(p: Progress, n: NodeId, forward: map<NodeId, Node>, two: bool)
    requires n in forward && n in p.scheduled && Accepts(p, ComputeForward(n), forward, two) && Planned(p, forward)
    ensures Planned(Done(p, ComputeForward(n), forward, two), forward)
  {
    hide Denotes, AllDenote;
    var node, redo := forward[n], Redo(n, Sources(p.staged, forward[n].inputs));
    var redos := p.redos + [redo];
    var q := Done(p, ComputeForward(n), forward, two);
    forall v | v in q.staged ensures Denotes(redos, forward, q.staged[v], v) {
      if v in node.outputs {
        LastDenotes(redos, forward, IndexOfOutput(node.outputs, v), v);
      } else {
        DenotesLater(p.redos, redo, forward, p.staged[v], v);
      }
    }
    forall k | 0 <= k < |redos|
      ensures redos[k].node in forward && AllDenote(redos, forward, redos[k].inputs, forward[redos[k].node].inputs)
    {
      if k < |p.redos| {
        AllDenoteLater(p.redos, redo, forward, p.redos[k].inputs, forward[p.redos[k].node].inputs);
      } else {
        StagedDenote(p, redo, forward, node.inputs);
      }
    }
    assert redos[|p.redos|].node == n;
    forall m | m in q.last && q.last[m] == Recomputed ensures exists k :: 0 <= k < |redos| && redos[k].node == m {
      if m != n {
        var k :| 0 <= k < |p.redos| && p.redos[k].node == m;
        assert redos[k].node == m;
      }
    }
  }

  function IndexOfOutput(outputs: seq<ValueId>, v: ValueId): nat
    requires v in outputs
  {
    G.IndexOf(outputs, v)
  }

  lemma LastDenotes(redos: seq<Redo>, forward: map<NodeId, Node>, i: nat, v: ValueId)
    requires redos != [] && redos[|redos| - 1].node in forward
    requires i < |forward[redos[|redos| - 1].node].outputs| && forward[redos[|redos| - 1].node].outputs[i] == v
    ensures Denotes(redos, forward, Output(|redos| - 1, i), v)
  {
  }

  lemma DenotesLater(redos: seq<Redo>, redo: Redo, forward: map<NodeId, Node>, s: Source, v: ValueId)
    requires Denotes(redos, forward, s, v)
    ensures Denotes(redos + [redo], forward, s, v)
  {
  }

  lemma AllDenoteLater(redos: seq<Redo>, redo: Redo, forward: map<NodeId, Node>, ss: seq<Source>, vs: seq<ValueId>)
    requires AllDenote(redos, forward, ss, vs)
    ensures AllDenote(redos + [redo], forward, ss, vs)
  {
    forall i | 0 <= i < |vs|
      ensures Denotes(redos + [redo], forward, ss[i], vs[i])
    {
      DenotesLater(redos, redo, forward, ss[i], vs[i]);
    }
  }

  lemma StagedDenote(p: Progress, redo: Redo, forward: map<NodeId, Node>, vs: seq<ValueId>)
    requires Planned(p, forward) && forall i :: 0 <= i < |vs| ==> vs[i] in p.staged
    ensures AllDenote(p.redos + [redo], forward, Sources(p.staged, vs), vs)
  {
    forall i | 0 <= i < |vs| ensures Denotes(p.redos + [redo], forward, Sources(p.staged, vs)[i], vs[i]) {
      DenotesLater(p.redos, redo, forward, p.staged[vs[i]], vs[i]);
    }
  }

  lemma {:induction false} CourseIsPlanned(p: Progress, orders: seq<Order>, forward: map<NodeId, Node>,
                                           outputs: seq<ValueId>, two: bool)
    requires forall k :: 0 <= k < |orders| ==> Known(orders[k], forward)
    requires Planned(p, forward) && Course(p, orders, forward, outputs, two).Reached?
    ensures Planned(Course(p, orders, forward, outputs, two).progress, forward)
    decreases |orders|
  {
    hide Accepts, Planned;
    if orders != [] {
      var n := |orders| - 1;
      CourseIsPlanned(p, orders[..n], forward, outputs, two);
      var q := Course(p, orders[..n], forward, outputs, two).progress;
      SwitchedIsPlanned(q, forward, outputs, two);
      DoneIsPlanned(Switched(q, outputs, two), orders[n], forward, two);
    }
  }

  lemma SwitchedIsPlanned(p: Progress, forward: map<NodeId, Node>, outputs: seq<ValueId>, two: bool)
    requires Planned(p, forward)
    ensures Planned(Switched(p, outputs, two), forward)
  {
  }

  /** A list of orders from a beginning, all of them accepted. */
  datatype Run = Run(p: Progress, g: Held, forward: map<NodeId, Node>, outputs: seq<ValueId>, two: bool)
  {
    ghost predicate Goes(orders: seq<Order>) {
      && (forall k :: 0 <= k < |orders| ==> Known(orders[k], forward))
      && Planned(p, forward) && Course(p, orders, forward, outputs, two).Reached?
    }

    /** How far the orders have come when the next one is looked at. */
    ghost function Now(orders: seq<Order>): Progress
      requires Goes(orders)
    {
      Switched(Course(p, orders, forward, outputs, two).progress, outputs, two)
    }

    lemma Before(orders: seq<Order>)
      requires Goes(orders) && orders != []
      ensures Goes(orders[..|orders| - 1])
      ensures
        var order := orders[|orders| - 1];
        && Known(order, forward) && Accepts(Now(orders[..|orders| - 1]), order, forward, two)
        && (order.ComputeBackward? ==> May(Now(orders[..|orders| - 1]), order.node, forward))
    {
      hide Planned;
      var n := |orders| - 1;
      assert Course(p, orders[..n], forward, outputs, two).Reached?;
      assert Goes(orders[..n]);
      CourseIsPlanned(p, orders[..n], forward, outputs, two);
      SwitchedIsPlanned(Course(p, orders[..n], forward, outputs, two).progress, forward, outputs, two);
    }

    /** The gradients after the orders. */
    ghost function Flow(orders: seq<Order>): Held
      requires Goes(orders)
      decreases |orders|
    {
      if orders == [] then g else
        Before(orders);
        var n := |orders| - 1;
        match orders[n]
        case ComputeBackward(id, _) =>
          PlacesFit(Now(orders[..n]), id, forward, two);
          After(Flow(orders[..n]), PlacesOf(Now(orders[..n]), id, forward, two), forward[id], id)
        case _ => Flow(orders[..n])
    }

    /** All that the orders should have added to the gradient of `v`. */
    ghost function Due(orders: seq<Order>, v: ValueId): multiset<NodeId>
      requires Goes(orders)
      decreases |orders|
    {
      if orders == [] then multiset{} else
        Before(orders);
        var n := |orders| - 1;
        match orders[n]
        case ComputeBackward(id, _) =>
          PlacesFit(Now(orders[..n]), id, forward, two);
          Due(orders[..n], v) + Share(Flow(orders[..n]), PlacesOf(Now(orders[..n]), id, forward, two), forward[id], id,
              v)
        case _ => Due(orders[..n], v)
    }

    ghost predicate Complete(orders: seq<Order>)
      requires Goes(orders)
    {
      forall v: ValueId :: At(Flow(orders), Forward(v)) == At(g, Forward(v)) + Due(orders, v)
    }

    /** After each order every gradient has all its contributions. */
    ghost predicate CompleteAlong(orders: seq<Order>)
      requires Goes(orders)
      decreases |orders|
    {
      Complete(orders) && (orders != [] ==> (Before(orders); CompleteAlong(orders[..|orders| - 1])))
    }

    /** At each backward order, gradients are the same where the node's inputs are staged and at the
        forward values. */
    ghost predicate InSyncAlong(orders: seq<Order>)
      requires Goes(orders)
      decreases |orders|
    {
      if orders == [] then true else
        Before(orders);
        var n := |orders| - 1;
        && InSyncAlong(orders[..n])
        && match orders[n]
           case ComputeBackward(id, _) =>
             PlacesFit(Now(orders[..n]), id, forward, two);
             InSync(Flow(orders[..n]), PlacesOf(Now(orders[..n]), id, forward, two), forward[id])
           case _ => true
    }

    /** No input of a node has been recomputed between the node's last computation and the
        computation of its gradient. */
    ghost predicate SteadyAlong(orders: seq<Order>)
      requires Goes(orders)
      decreases |orders|
    {
      if orders == [] then true else
        Before(orders);
        var n := |orders| - 1;
        && SteadyAlong(orders[..n])
        && match orders[n]
           case ComputeBackward(id, _) => Steady(PlacesOf(Now(orders[..n]), id, forward, two), forward[id])
           case _ => true
    }

    /** Gradients are complete after each order exactly when they are in sync at each backward order. */
    lemma {:induction false} CompleteExactlyInSync(orders: seq<Order>)
      requires Goes(orders)
      ensures CompleteAlong(orders) <==> InSyncAlong(orders)
      decreases |orders|
    {
      hide Goes, After, Share, InSync, Fit, May, Planned, PlacesOf, Now;
      if orders != [] {
        Before(orders);
        var n := |orders| - 1;
        CompleteExactlyInSync(orders[..n]);
        if orders[n].ComputeBackward? && Complete(orders[..n]) { LastIsRight(orders); }
      } else {
        assert Complete(orders);
      }
    }

    lemma LastIsRight(orders: seq<Order>)
      requires Goes(orders) && orders != [] && orders[|orders| - 1].ComputeBackward?
      requires Goes(orders[..|orders| - 1]) && Complete(orders[..|orders| - 1])
      requires May(Now(orders[..|orders| - 1]), orders[|orders| - 1].node, forward)
      ensures
        var n := |orders| - 1;
        var t := PlacesOf(Now(orders[..n]), orders[n].node, forward, two);
        && Fit(t, forward[orders[n].node])
        && (Complete(orders) <==> InSync(Flow(orders[..n]), t, forward[orders[n].node]))
    {
      hide Goes, After, Share, InSync, Stands, OneEach, Sized, Planned, PlacesOf, Now;
      var n := |orders| - 1;
      var id := orders[n].node;
      var t := PlacesOf(Now(orders[..n]), id, forward, two);
      PlacesFit(Now(orders[..n]), id, forward, two);
      var before, after := Flow(orders[..n]), Flow(orders);
      OrderIsRight(before, t, forward[id], id);
      forall v: ValueId
        ensures At(after, Forward(v)) == At(before, Forward(v)) + Share(before, t, forward[id], id, v)
          <==> At(after, Forward(v)) == At(g, Forward(v)) + Due(orders, v)
      {
        assert At(before, Forward(v)) == At(g, Forward(v)) + Due(orders[..n], v);
      }
    }

    /** So they are when no node's inputs have changed. */
    lemma {:induction false} SteadyIsComplete(orders: seq<Order>)
      requires Goes(orders) && SteadyAlong(orders)
      ensures InSyncAlong(orders) && CompleteAlong(orders)
      decreases |orders|
    {
      hide Goes, InSync, Fit, May, Planned, PlacesOf, Now, Steady;
      CompleteExactlyInSync(orders);
      if orders != [] {
        Before(orders);
        var n := |orders| - 1;
        SteadyIsComplete(orders[..n]);
        if orders[n].ComputeBackward? {
          var id := orders[n].node;
          PlacesFit(Now(orders[..n]), id, forward, two);
          SteadyIsInSync(Flow(orders[..n]), PlacesOf(Now(orders[..n]), id, forward, two), forward[id]);
        }
      }
    }

    /** One order more. */
    lemma Next(orders: seq<Order>, order: Order)
      requires Goes(orders) && Known(order, forward) && Accepts(Now(orders), order, forward, two)
      ensures Goes(orders + [order])
      ensures Course(p, orders + [order], forward, outputs, two).progress == Done(Now(orders), order, forward, two)
    {
      hide Accepts, Done, Planned, Switched;
      assert (orders + [order])[..|orders|] == orders;
      assert forall k :: 0 <= k < |orders| ==> (orders + [order])[k] == orders[k];
    }

    lemma NextKeeps(orders: seq<Order>, order: Order, v: ValueId)
      requires Goes(orders) && Goes(orders + [order]) && !order.ComputeBackward?
      ensures Flow(orders + [order]) == Flow(orders) && Due(orders + [order], v) == Due(orders, v)
    {
      hide Goes, Now, After, Share;
      assert (orders + [order])[..|orders|] == orders;
    }

    lemma NextBackward(orders: seq<Order>, id: NodeId, asked: seq<nat>, v: ValueId)
      requires Goes(orders) && Goes(orders + [ComputeBackward(id, asked)])
      ensures May(Now(orders), id, forward) && Fit(PlacesOf(Now(orders), id, forward, two), forward[id])
      ensures
        var t := PlacesOf(Now(orders), id, forward, two);
        && Flow(orders + [ComputeBackward(id, asked)]) == After(Flow(orders), t, forward[id], id)
        && Due(orders + [ComputeBackward(id, asked)], v) == Due(orders, v) + Share(Flow(orders), t, forward[id], id, v)
    {
      hide Accepts, Done, Planned, Fit;
      var all := orders + [ComputeBackward(id, asked)];
      assert all[..|orders|] == orders;
      Before(all);
      PlacesFit(Now(orders), id, forward, two);
    }
  }

  // ---- a value that is recomputed between its uses ----

  /** Value 1 is computed by node 0 and read by nodes 1 and 2; 3 is what comes in at their outputs. */
  function SharedNodes(): map<NodeId, Node> {
    map[0 := Node(Square, [0], [1]), 1 := Node(Square, [1], [2]), 2 := Node(Square, [1], [3])]
  }

  function SharedRun(): Run {
    Run(Progress(map[0 := Itself(0)], {}, map[], false, [], []),
        map[Forward(2) := multiset{3}, Forward(3) := multiset{3}],
        SharedNodes(), [2, 3], false)
  }

  /** All nodes, the gradient of node 2, value 1 once more; then comes the gradient of node 1. */
  function SharedOrders(): seq<Order> {
    [ComputeForward(0), ComputeForward(1), ComputeForward(2), ComputeBackward(2, [0]), ForgetForward(1),
     ComputeForward(0)]
  }

  /** The run has come to `q` by an order that changes no gradient. */
  lemma Comes(os: seq<Order>, order: Order, q: Progress, q': Progress, v: ValueId)
    requires SharedRun().Goes(os) && SharedRun().Now(os) == q && Known(order, SharedNodes()) && !order.ComputeBackward?
    requires Accepts(q, order, SharedNodes(), false) && Done(q, order, SharedNodes(), false) == q' && !q'.inBackward
    ensures SharedRun().Goes(os + [order]) && SharedRun().Now(os + [order]) == q'
    ensures SharedRun().Flow(os + [order]) == SharedRun().Flow(os)
    ensures SharedRun().Due(os + [order], v) == SharedRun().Due(os, v)
  {
    hide Accepts, Done, SharedNodes;
    SharedRun().Next(os, order);
    hide SharedRun().Goes, SharedRun().Flow, SharedRun().Due;
    SharedRun().NextKeeps(os, order, v);
  }

  function P1(): Progress { Progress(map[0 := Itself(0), 1 := Itself(1)], {0}, map[0 := Original], false, [], []) }

  function P2(): Progress {
    Progress(map[0 := Itself(0), 1 := Itself(1), 2 := Itself(2)], {0, 1}, map[0 := Original, 1 := Original], false, [],
             [])
  }

  function P3(): Progress {
    Progress(map[0 := Itself(0), 1 := Itself(1), 2 := Itself(2), 3 := Itself(3)], {0, 1, 2},
             map[0 := Original, 1 := Original, 2 := Original], false, [], [])
  }

  lemma StepOne()
    ensures Accepts(SharedRun().p, ComputeForward(0), SharedNodes(), false)
    ensures Done(SharedRun().p, ComputeForward(0), SharedNodes(), false) == P1()
  {
  }

  lemma StepTwo()
    ensures Accepts(P1(), ComputeForward(1), SharedNodes(), false)
    ensures Done(P1(), ComputeForward(1), SharedNodes(), false) == P2()
  {
  }

  lemma StepThree()
    ensures Accepts(P2(), ComputeForward(2), SharedNodes(), false)
    ensures Done(P2(), ComputeForward(2), SharedNodes(), false) == P3()
  {
  }

  lemma FirstThree()
    ensures
      var os := [ComputeForward(0), ComputeForward(1), ComputeForward(2)];
      && SharedRun().Goes(os) && SharedRun().Flow(os) == SharedRun().g && SharedRun().Due(os, 1) == multiset{}
      && SharedRun().Now(os) == P3()
  {
    hide *;
    var r := SharedRun();
    NoOrders();
    StepOne();
    StepTwo();
    StepThree();
    PlainSteps();
    var one, two := [ComputeForward(0)], [ComputeForward(0), ComputeForward(1)];
    Comes([], ComputeForward(0), r.p, P1(), 1);
    assert [] + [ComputeForward(0)] == one && one + [ComputeForward(1)] == two;
    Comes(one, ComputeForward(1), P1(), P2(), 1);
    Comes(two, ComputeForward(2), P2(), P3(), 1);
    assert two + [ComputeForward(2)] == [ComputeForward(0), ComputeForward(1), ComputeForward(2)];
  }

  lemma PlainSteps()
    ensures !P1().inBackward && !P2().inBackward && !P3().inBackward
    ensures forall n :: 0 <= n < 3 ==> Known(ComputeForward(n), SharedNodes())
  {
  }

  lemma NoOrders()
    ensures SharedRun().Goes([]) && SharedRun().Now([]) == SharedRun().p
    ensures SharedRun().Flow([]) == SharedRun().g && SharedRun().Due([], 1) == multiset{}
  {
  }

  function P4(): Progress { P3().(backs := [Back(2, [0])]) }

  function P5(): Progress { P4().(staged := map[0 := Itself(0), 2 := Itself(2), 3 := Itself(3)]) }

  function P6(): Progress {
    P5().(staged := map[0 := Itself(0), 1 := Output(0, 0), 2 := Itself(2), 3 := Itself(3)],
          last := map[0 := Recomputed, 1 := Original, 2 := Original], redos := [Redo(0, [Itself(0)])])
  }

  /** The gradients after that of node 2. */
  function G4(): Held { SharedRun().g[Forward(1) := multiset{2}] }

  lemma StepFour()
    ensures 2 in SharedNodes() && Known(ComputeBackward(2, [0]), SharedNodes())
    ensures Accepts(P3(), ComputeBackward(2, [0]), SharedNodes(), false)
    ensures Done(P3(), ComputeBackward(2, [0]), SharedNodes(), false) == P4() && !P4().inBackward
  {
  }

  lemma StepFive()
    ensures Known(ForgetForward(1), SharedNodes()) && Accepts(P4(), ForgetForward(1), SharedNodes(), false)
    ensures Done(P4(), ForgetForward(1), SharedNodes(), false) == P5() && !P5().inBackward
  {
  }

  lemma StepSix()
    ensures Known(ComputeForward(0), SharedNodes()) && Accepts(P5(), ComputeForward(0), SharedNodes(), false)
    ensures Done(P5(), ComputeForward(0), SharedNodes(), false) == P6() && !P6().inBackward
  {
    hide Restaged, Sources;
    StagedAgain();
    assert 0 in P5().scheduled && SharedNodes()[0] == Node(Square, [0], [1]);
  }

  lemma StagedAgain()
    ensures Restaged(P5().staged, [1], 0) == P6().staged
    ensures 0 in P5().staged && Sources(P5().staged, [0]) == [Itself(0)] && 1 !in P5().staged
  {
  }

  lemma StepSeven()
    ensures 1 in SharedNodes() && Known(ComputeBackward(1, [0]), SharedNodes())
    ensures Accepts(P6(), ComputeBackward(1, [0]), SharedNodes(), false)
  {
  }

  lemma PlacesOfTwo()
    requires May(P3(), 2, SharedNodes())
    ensures PlacesOf(P3(), 2, SharedNodes(), false) == Places([], [], [Forward(1)], [Forward(3)])
  {
  }

  lemma PlacesOfOne()
    requires May(P6(), 1, SharedNodes())
    ensures PlacesOf(P6(), 1, SharedNodes(), false) == Places([], [], [Copied(0, 0)], [Forward(2)])
  {
  }

  lemma HandedOne(g: Held, h: Holder, n: NodeId)
    ensures Handed(g, [h], n) == g[h := At(g, h) + multiset{n}]
  {
    assert [h][..0] == [];
    assert Handed(g, [], n) == g;
  }

  lemma ReturnedOne(g: Held, h: Holder, v: ValueId)
    ensures Returned(g, [h], [v]) == Transfer(g, h, Forward(v))
  {
    assert [h][..0] == [] && [v][..0] == [];
    assert Returned(g, [], []) == g;
  }

  lemma AfterTwo()
    ensures
      var t := Places([], [], [Forward(1)], [Forward(3)]);
      && After(SharedRun().g, t, SharedNodes()[2], 2) == G4()
      && Share(SharedRun().g, t, SharedNodes()[2], 2, 1) == multiset{2}
  {
    hide After, Share;
    AfterOneReader(SharedRun().g, SharedNodes()[2], Forward(1), Forward(3), 1, 2);
    assert At(SharedRun().g, Forward(1)) + multiset{2} == multiset{2};
  }

  lemma AfterOne()
    ensures
      var t := Places([], [], [Copied(0, 0)], [Forward(2)]);
      && At(After(G4(), t, SharedNodes()[1], 1), Forward(1)) == multiset{1}
      && Share(G4(), t, SharedNodes()[1], 1, 1) == multiset{1}
  {
    hide After, Share, Transfer;
    AfterOneReader(G4(), SharedNodes()[1], Copied(0, 0), Forward(2), 1, 1);
    assert Copied(0, 0) !in G4();
    TransferOne(G4(), Copied(0, 0), 1, 1);
  }

  /** A node that reads one value, and whose gradient comes in, hands on to the holder of the value. */
  lemma AfterOneReader(g: Held, n: Node, h: Holder, o: Holder, v: ValueId, id: NodeId)
    requires n.inputs == [v] && Differentiable(n.op) && o in g
    ensures
      var t := Places([], [], [h], [o]);
      After(g, t, n, id) == Transfer(g[h := At(g, h) + multiset{id}], h, Forward(v)) && Share(g, t, n, id,
            v) == multiset{id}
  {
    hide Handed, Returned, Differentiable, Transfer;
    var t := Places([], [], [h], [o]);
    assert t.own + t.ownOuts == [];
    assert Active(Collected(g, t, n).Keys, t, n);
    HandedOne(g, h, id);
    ReturnedOne(Handed(g, [h], id), h, v);
    assert multiset([v])[v] == 1;
  }

  lemma TransferOne(g: Held, h: Holder, v: ValueId, id: NodeId)
    requires h !in g
    ensures At(Transfer(g[h := At(g, h) + multiset{id}], h, Forward(v)), Forward(v)) == multiset{id}
  {
  }

  /** Then value 1 has lost what node 2 contributed. */
  lemma GradientIsOverwritten()
    ensures
      var os := SharedOrders() + [ComputeBackward(1, [0])];
      && SharedRun().Goes(os) && At(SharedRun().Flow(os), Forward(1)) == multiset{1}
      && SharedRun().Due(os, 1) == multiset{1, 2}
  {
    hide *;
    FirstSix();
    StepSeven();
    Backwards(SharedOrders(), 1, P6());
    PlacesOfOne();
    AfterOne();
    assert multiset{2} + multiset{1} == multiset{1, 2};
  }

  lemma FirstSix()
    ensures SharedRun().Goes(SharedOrders()) && SharedRun().Flow(SharedOrders()) == G4()
    ensures SharedRun().Due(SharedOrders(), 1) == multiset{2}
    ensures SharedRun().Now(SharedOrders()) == P6()
  {
    hide *;
    FirstFour();
    StepFive();
    StepSix();
    var four := [ComputeForward(0), ComputeForward(1), ComputeForward(2), ComputeBackward(2, [0])];
    Comes(four, ForgetForward(1), P4(), P5(), 1);
    Comes(four + [ForgetForward(1)], ComputeForward(0), P5(), P6(), 1);
    SharedOrdersAre();
  }

  lemma SharedOrdersAre()
    ensures [ComputeForward(0), ComputeForward(1), ComputeForward(2), ComputeBackward(2, [0])] + [ForgetForward(1)] +
      [ComputeForward(0)]
      == SharedOrders()
  {
  }

  lemma FirstFour()
    ensures
      var os := [ComputeForward(0), ComputeForward(1), ComputeForward(2), ComputeBackward(2, [0])];
      && SharedRun().Goes(os) && SharedRun().Flow(os) == G4() && SharedRun().Due(os, 1) == multiset{2}
      && SharedRun().Now(os) == P4()
  {
    hide *;
    FirstThree();
    StepFour();
    var os := [ComputeForward(0), ComputeForward(1), ComputeForward(2)];
    Backwards(os, 2, P3());
    DoneIsNow(os, 2, P3(), P4());
    PlacesOfTwo();
    AfterTwo();
    assert os + [ComputeBackward(2, [0])] == [ComputeForward(0), ComputeForward(1), ComputeForward(2),
                                              ComputeBackward(2, [0])];
  }

  lemma DoneIsNow(os: seq<Order>, id: NodeId, q: Progress, q': Progress)
    requires SharedRun().Goes(os) && SharedRun().Now(os) == q && Known(ComputeBackward(id, [0]), SharedNodes())
    requires Accepts(q, ComputeBackward(id, [0]), SharedNodes(), false)
    requires Done(q, ComputeBackward(id, [0]), SharedNodes(), false) == q'
    requires !q'.inBackward && SharedRun().Goes(os + [ComputeBackward(id, [0])])
    ensures SharedRun().Now(os + [ComputeBackward(id, [0])]) == q'
  {
    hide Accepts, Done, SharedNodes;
    SharedRun().Next(os, ComputeBackward(id, [0]));
  }

  /** The gradient of a node is next. */
  lemma Backwards(os: seq<Order>, id: NodeId, q: Progress)
    requires SharedRun().Goes(os) && SharedRun().Now(os) == q && Known(ComputeBackward(id, [0]), SharedNodes())
    requires Accepts(q, ComputeBackward(id, [0]), SharedNodes(), false) && id in SharedNodes()
    ensures SharedRun().Goes(os + [ComputeBackward(id, [0])])
    ensures May(q, id, SharedNodes()) && Fit(PlacesOf(q, id, SharedNodes(), false), SharedNodes()[id])
    ensures
      var t := PlacesOf(q, id, SharedNodes(), false);
      && SharedRun().Flow(os + [ComputeBackward(id, [0])]) == After(SharedRun().Flow(os), t, SharedNodes()[id], id)
      && SharedRun().Due(os + [ComputeBackward(id, [0])], 1)
           == SharedRun().Due(os, 1) + Share(SharedRun().Flow(os), t, SharedNodes()[id], id, 1)
  {
    hide Accepts, Done, SharedNodes, May, PlacesOf, Fit, After, Share, Planned;
    SharedRun().Next(os, ComputeBackward(id, [0]));
    SharedRun().NextBackward(os, id, [0], 1);
  }
}
