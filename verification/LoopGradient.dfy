/** compiler/gradient_ops.cc, OutputIterationCount and LoopGradFn: the gradient of a whole loop. */
module LoopGradient {
  import opened Ir
  import opened GraphIr
  import opened Builder
  import opened Worklist
  import opened ReverseMode
  import opened GradientOps
  import opened Gradient
  import opened Loops
  import opened GradientRuns
  import opened GradientReach
  import opened LoopGradientMeaning
  import opened LoopGradientRuns

  lemma LessLater(vs: seq<ValueId>, bound: nat, bound': nat)
    requires AllIn(vs, bound) && bound <= bound'
    ensures AllIn(vs, bound')
  {
  }

  lemma LessInserted(vs: seq<ValueId>, k: nat, v: ValueId, bound: nat, bound': nat)
    requires AllIn(vs, bound) && bound <= bound' && v < bound' && k <= |vs|
    ensures AllIn(vs[..k] + [v] + vs[k..], bound') && AllIn(vs + [v], bound')
  {
    var after := vs[..k] + [v] + vs[k..];
    forall i | 0 <= i < |after| ensures after[i] < bound' {
      assert i < k ==> after[i] == vs[i] && vs[i] in vs;
      assert i > k ==> after[i] == vs[i - 1] && vs[i - 1] in vs;
    }
  }

  /** The body's part of OutputIterationCount. */
  method CountInBody(body: Graph) returns (one: ValueId, countIn: ValueId, countOut: ValueId)
    requires body.Valid({})
    modifies body
    ensures body.Valid({}) && Within(old(body.node), body.node) && (Listed(body) || !old(Listed(body)))
    ensures one == old(body.nextValue) && countIn == one + 1 && countOut == one + 2 && body.nextValue == one + 3
    ensures Has(body.node, Node(Constant(Int(1)), [], [one])) && Has(body.node, Node(Add, [countIn, one], [countOut]))
    ensures body.producer.Keys == old(body.producer.Keys) + {one, countOut}
    ensures CountNodes(old(body.node), body.node, one, countIn, countOut)
  {
    hide DefUse, Written, Has, Within, NodesAdded, Listed;
    one := Emit(body, Constant(Int(1)), []);
    ghost var between := body.node;
    countIn := body.AddValue({});
    countOut := Emit(body, Add, [countIn, one]);
    WithinTrans(old(body.node), between, body.node);
    HasWithin(between, body.node, Node(Constant(Int(1)), [], [one]));
    TwoAddedNodes(old(body.node), between, body.node, one, countIn, countOut);
  }

  /** Only the two nodes of the counter are new. */
  ghost predicate CountNodes(before: map<NodeId, Node>, after: map<NodeId, Node>, one: ValueId, countIn: ValueId,
                             countOut: ValueId) {
    forall id :: id in after && id !in before ==>
      after[id] == Node(Constant(Int(1)), [], [one]) || after[id] == Node(Add, [countIn, one], [countOut])
  }

  lemma TwoAddedNodes(before: map<NodeId, Node>, between: map<NodeId, Node>, after: map<NodeId, Node>,
                      one: ValueId, countIn: ValueId, countOut: ValueId)
    requires NodesAdded(before, between, Node(Constant(Int(1)), [], [one])) && Within(between, after)
    requires NodesAdded(between, after, Node(Add, [countIn, one], [countOut]))
    ensures CountNodes(before, after, one, countIn, countOut)
  {
  }

  /** OutputIterationCount: the number of iterations becomes one more state. */
  method OutputIterationCount(gc: GradientContext, loop: LoopNode) returns (p: Pushes)
    requires gc.Ok() && !gc.twoGraphs && loop.Ok(gc.graph.nextValue) && gc.graph != loop.body && 2 <= |loop.inputs|
    requires |loop.inputs| - 2 <= |loop.outputs|
    modifies gc.graph, loop.body, loop`inputs, loop`outputs, loop`bodyInputs, loop`bodyOutputs
    ensures gc.Ok() && loop.Ok(gc.graph.nextValue) && old(gc.graph.nextValue) <= gc.graph.nextValue
    ensures Grown(old(gc.graph.node), gc.retained, gc.graph.node, gc.retained)
    ensures Within(old(loop.body.node), loop.body.node)
    ensures Counts(gc.graph.node, loop.body.node, p)
    ensures p.values == p.pushIns == p.pushOuts == p.stackIns == p.stackOuts == []
    ensures p.count >= old(gc.graph.nextValue) && p.count !in gc.graph.producer
    ensures var states := |old(loop.inputs)| - 2;
      && loop.inputs == old(loop.inputs) + [p.zero]
      && loop.outputs == old(loop.outputs)[..states] + [p.count] + old(loop.outputs)[states..]
      && loop.bodyInputs == old(loop.bodyInputs) + [p.countIn]
      && loop.bodyOutputs == old(loop.bodyOutputs) + [p.countOut]
    ensures (Listed(loop.body) || !old(Listed(loop.body)))
    ensures p.one == old(loop.body.nextValue) && p.countIn == p.one + 1 && p.countOut == p.one + 2
    ensures loop.body.nextValue == p.one + 3
    ensures loop.body.producer.Keys == old(loop.body.producer.Keys) + {p.one, p.countOut}
    ensures CountNodes(old(loop.body.node), loop.body.node, p.one, p.countIn, p.countOut)
  {
    hide DefUse, Written, Below, Has, Within, Listed, Grown, NodesBelow, Newer, AllSound, Placeholders, AllWithin,
      CountNodes, AllIn;
    var states := |loop.inputs| - 2;
    var zero := gc.Op(Constant(Int(0)), []);
    ghost var node := gc.graph.node;
    loop.inputs := loop.inputs + [zero];
    var count := gc.NewValue();
    loop.outputs := loop.outputs[..states] + [count] + loop.outputs[states..];
    var one, countIn, countOut := CountInBody(loop.body);
    loop.bodyInputs := loop.bodyInputs + [countIn];
    loop.bodyOutputs := loop.bodyOutputs + [countOut];
    LessInserted(old(loop.inputs), 0, zero, old(gc.graph.nextValue), gc.graph.nextValue);
    LessInserted(old(loop.outputs), states, count, old(gc.graph.nextValue), gc.graph.nextValue);
    LessInserted(old(loop.bodyInputs), 0, countIn, old(loop.body.nextValue), loop.body.nextValue);
    LessInserted(old(loop.bodyOutputs), 0, countOut, old(loop.body.nextValue), loop.body.nextValue);
    p := Pushes(zero, count, one, countIn, countOut, [], [], [], [], []);
  }

  // ---- stacks ----

  ghost predicate Inserts(body: map<NodeId, Node>, values: seq<ValueId>, pushIns: seq<ValueId>, pushOuts: seq<ValueId>,
                          k: nat) {
    && k <= |values| && |pushIns| == |pushOuts| == k
    && forall r :: 0 <= r < k ==> Has(body, Node(SequenceInsert, [pushIns[r], values[r]], [pushOuts[r]]))
  }

  lemma InsertsMore(before: map<NodeId, Node>, body: map<NodeId, Node>, values: seq<ValueId>, pushIns: seq<ValueId>,
                    pushOuts: seq<ValueId>, k: nat, i: ValueId, o: ValueId)
    requires Inserts(before, values, pushIns, pushOuts, k) && k < |values| && Within(before, body)
    requires Has(body, Node(SequenceInsert, [i, values[k]], [o]))
    ensures Inserts(body, values, pushIns + [i], pushOuts + [o], k + 1)
  {
    hide Has, Within;
    forall r | 0 <= r < k ensures Has(body, Node(SequenceInsert, [pushIns[r], values[r]], [pushOuts[r]])) {
      HasWithin(before, body, Node(SequenceInsert, [pushIns[r], values[r]], [pushOuts[r]]));
    }
  }

  /** Only the pushes are new, and every one has two new values of its own. */
  ghost predicate OnlyInserts(before: map<NodeId, Node>, after: map<NodeId, Node>, values: seq<ValueId>,
                              pushIns: seq<ValueId>, pushOuts: seq<ValueId>, base: nat) {
    && InPairs(pushIns, pushOuts, base) && |pushIns| <= |values|
    && forall n :: n in after && n !in before ==> Inserting(after[n], values, pushIns, pushOuts)
  }

  /** New values, two by two. */
  ghost predicate InPairs(a: seq<ValueId>, b: seq<ValueId>, base: nat) {
    |a| == |b| && forall r :: 0 <= r < |a| ==> a[r] == base + 2 * r && b[r] == base + 2 * r + 1
  }

  ghost predicate Inserting(n: Node, values: seq<ValueId>, pushIns: seq<ValueId>, pushOuts: seq<ValueId>) {
    exists r :: 0 <= r < |pushIns| && r < |pushOuts| && r < |values|
      && n == Node(SequenceInsert, [pushIns[r], values[r]], [pushOuts[r]])
  }

  lemma OnlyInsertsMore(first: map<NodeId, Node>, before: map<NodeId, Node>, body: map<NodeId, Node>,
                        values: seq<ValueId>, pushIns: seq<ValueId>, pushOuts: seq<ValueId>, base: nat, i: ValueId)
    requires OnlyInserts(first, before, values, pushIns, pushOuts, base) && |pushIns| < |values| && Within(before, body)
    requires i == base + 2 * |pushIns|
    requires NodesAdded(before, body, Node(SequenceInsert, [i, values[|pushIns|]], [i + 1]))
    ensures OnlyInserts(first, body, values, pushIns + [i], pushOuts + [i + 1], base)
  {
    forall n | n in body && n !in first ensures Inserting(body[n], values, pushIns + [i], pushOuts + [i + 1]) {
      if n in before {
        assert Inserting(before[n], values, pushIns, pushOuts);
        var r :| 0 <= r < |pushIns| && r < |values| && before[n] ==
          Node(SequenceInsert, [pushIns[r], values[r]], [pushOuts[r]]);
        assert (pushIns + [i])[r] == pushIns[r] && (pushOuts + [i + 1])[r] == pushOuts[r];
      } else {
        assert (pushIns + [i])[|pushIns|] == i && (pushOuts + [i + 1])[|pushIns|] == i + 1;
      }
    }
  }

  lemma OnlyInsertsNone(body: map<NodeId, Node>, values: seq<ValueId>, base: nat)
    ensures OnlyInserts(body, body, values, [], [], base)
  {
  }

  /** The forward body pushes the retained values. */
  method PushInBody(body: Graph, values: seq<ValueId>) returns (pushIns: seq<ValueId>, pushOuts: seq<ValueId>)
    requires body.Valid({}) && AllIn(values, body.nextValue)
    modifies body
    ensures body.Valid({}) && Within(old(body.node), body.node) && body.nextValue >= old(body.nextValue)
    ensures Inserts(body.node, values, pushIns, pushOuts, |values|)
    ensures OnlyInserts(old(body.node), body.node, values, pushIns, pushOuts, old(body.nextValue))
    ensures AllIn(pushIns, body.nextValue) && AllIn(pushOuts, body.nextValue)
  {
    hide DefUse, Written, Below, Inserts, Within, NodesAdded, Has, Listed, OnlyInserts;
    pushIns, pushOuts := [], [];
    var k := 0;
    WithinItself(body.node);
    InsertsNone(body.node, values);
    OnlyInsertsNone(body.node, values, body.nextValue);
    while k < |values|
      modifies body
      invariant 0 <= k <= |values| && body.Valid({}) && body.nextValue == old(body.nextValue) + 2 * k && |pushIns| == k
      invariant Within(old(body.node), body.node)
      invariant Inserts(body.node, values, pushIns, pushOuts, k)
      invariant OnlyInserts(old(body.node), body.node, values, pushIns, pushOuts, old(body.nextValue))
      invariant AllIn(pushIns, body.nextValue) && AllIn(pushOuts, body.nextValue)
    {
      ghost var before := body.node;
      assert values[k] in values;
      var i := body.AddValue({});
      var o := Emit(body, SequenceInsert, [i, values[k]]);
      WithinTrans(old(body.node), before, body.node);
      InsertsMore(before, body.node, values, pushIns, pushOuts, k, i, o);
      OnlyInsertsMore(old(body.node), before, body.node, values, pushIns, pushOuts, old(body.nextValue), i);
      pushIns, pushOuts := pushIns + [i], pushOuts + [o];
      k := k + 1;
    }
  }

  // ---- the forward body runs ----

  /** The body with its counter and its pushes, made in turn from `inside` on. */
  ghost predicate BodyMade(body0: map<NodeId, Node>, counted: map<NodeId, Node>, body: map<NodeId, Node>, p: Pushes,
                           inside: nat) {
    && NodesBelow(body0, inside) && Within(body0, counted) && Within(counted, body)
    && p.one == inside && p.countIn == inside + 1 && p.countOut == inside + 2
    && CountNodes(body0, counted, p.one, p.countIn, p.countOut)
    && OnlyInserts(counted, body, p.values, p.pushIns, p.pushOuts, inside + 3) && |p.pushIns| == |p.values|
    && AllIn(p.values, inside + 3)
  }

  function Inserted(env: Env, p: Pushes, start: Env): (r: seq<Data>)
    requires |p.pushIns| == |p.values|
    ensures |r| == |p.values|
  {
    seq(|p.values|, r requires 0 <= r < |p.values| =>
      if start(p.pushIns[r]).Sequence? then Sequence(start(p.pushIns[r]).elems + [env(p.values[r])]) else Null)
  }

  /** The counter first, then the stacks. */
  function Counting(benv: Env, p: Pushes, start: Env): Env {
    Set(benv, [p.one, p.countIn, p.countOut],
        [Int(1), start(p.countIn), if start(p.countIn).Int? then Int(start(p.countIn).i + 1) else Null])
  }

  function Pushing(benv: Env, p: Pushes, start: Env): Env
    requires |p.pushIns| == |p.pushOuts| == |p.values|
  {
    Set(Counting(benv, p, start), p.pushIns + p.pushOuts,
        Vals(start, p.pushIns) + Inserted(Counting(benv, p, start), p, start))
  }

  lemma PairsDistinct(a: seq<ValueId>, b: seq<ValueId>, base: nat)
    requires InPairs(a, b, base)
    ensures Distinct(a + b) && Distinct(a) && forall v :: v in a + b ==> base <= v
  {
    var all := a + b;
    forall i, k | 0 <= i < k < |all| ensures all[i] != all[k] {
      if i < |a| <= k { assert all[i] == base + 2 * i && all[k] == base + 2 * (k - |a|) + 1; }
    }
  }

  lemma CountingMeans(p: Pushes, inside: nat, benv: Env, start: Env)
    requires p.one == inside && p.countIn == inside + 1 && p.countOut == inside + 2 && start(p.countIn).Int?
    ensures var c := Counting(benv, p, start);
      && AgreeBelow(benv, c, inside) && c(p.one) == Int(1) && c(p.countIn) == start(p.countIn)
      && c(p.countOut) == Int(start(p.countIn).i + 1)
  {
    hide Set;
    var three, given := [p.one, p.countIn, p.countOut], [Int(1), start(p.countIn), Int(start(p.countIn).i + 1)];
    SetMeans(benv, three, given);
    var c := Counting(benv, p, start);
    assert c(three[0]) == Int(1) && c(three[1]) == start(p.countIn) && c(three[2]) == Int(start(p.countIn).i + 1);
  }

  lemma PushingMeans(body0: map<NodeId, Node>, counted: map<NodeId, Node>, body: map<NodeId, Node>, p: Pushes,
                     inside: nat, benv: Env, start: Env)
    requires BodyMade(body0, counted, body, p, inside) && Countable(p, start)
    ensures |p.pushIns| == |p.pushOuts| == |p.values|
    ensures var e := Pushing(benv, p, start);
      && AgreeBelow(benv, e, inside) && AgreeBelow(Counting(benv, p, start), e, inside + 3)
      && e(p.one) == Int(1) && e(p.countIn) == start(p.countIn) && e(p.countOut) == Int(start(p.countIn).i + 1)
      && (forall r :: 0 <= r < |p.values| ==> e(p.pushIns[r]) == start(p.pushIns[r]))
      && (forall r :: 0 <= r < |p.values| ==>
            e(p.pushOuts[r]) == Sequence(start(p.pushIns[r]).elems + [e(p.values[r])]))
  {
    hide NodesBelow, Within, CountNodes, Inserting, Counting, Set, AllIn, Distinct, Inserted;
    PairsDistinct(p.pushIns, p.pushOuts, inside + 3);
    var c, e := Counting(benv, p, start), Pushing(benv, p, start);
    CountingMeans(p, inside, benv, start);
    assert forall i :: 0 <= i < |p.pushIns + p.pushOuts| ==> (p.pushIns + p.pushOuts)[i] in p.pushIns + p.pushOuts;
    SetKeepsBelow(c, p.pushIns + p.pushOuts, Vals(start, p.pushIns) + Inserted(c, p, start), inside + 3);
    forall r | 0 <= r < |p.values|
      ensures e(p.pushIns[r]) == start(p.pushIns[r])
      ensures e(p.pushOuts[r]) == Sequence(start(p.pushIns[r]).elems + [e(p.values[r])])
    {
      assert p.values[r] < inside + 3 by { AllInAt(p.values, inside + 3, r); }
      PushedPair(c, p, start, r);
    }
  }

  lemma AllInAt(vs: seq<ValueId>, bound: nat, r: nat)
    requires AllIn(vs, bound) && r < |vs|
    ensures vs[r] < bound
  {
  }

  lemma PushedPair(c: Env, p: Pushes, start: Env, r: nat)
    requires |p.pushIns| == |p.pushOuts| == |p.values| && r < |p.values| && Distinct(p.pushIns + p.pushOuts)
    requires start(p.pushIns[r]).Sequence? && forall v :: v in p.pushIns + p.pushOuts ==> p.values[r] < v
    ensures
      var e := Set(c, p.pushIns + p.pushOuts, Vals(start, p.pushIns) + Inserted(c, p, start));
      && e(p.pushIns[r]) == start(p.pushIns[r])
      && e(p.pushOuts[r]) == Sequence(start(p.pushIns[r]).elems + [e(p.values[r])])
  {
    hide Set, Distinct;
    var all, data := p.pushIns + p.pushOuts, Vals(start, p.pushIns) + Inserted(c, p, start);
    SetAt(c, all, data, r);
    SetAt(c, all, data, |p.values| + r);
    SetElsewhere(c, all, data, p.values[r]);
  }
  lemma InsertHolds(kernels: Kernels, env: Env, i: ValueId, v: ValueId, o: ValueId)
    requires env(i).Sequence? && env(o) == Sequence(env(i).elems + [env(v)])
    ensures Holds(kernels, Node(SequenceInsert, [i, v], [o]), env)
  {
    assert Vals(env, [i, v]) == [env(i), env(v)] && Vals(env, [o]) == [env(o)];
  }

  lemma CounterHolds(kernels: Kernels, env: Env, one: ValueId, i: ValueId, o: ValueId)
    requires env(one) == Int(1) && env(i).Int? && env(o) == Int(env(i).i + 1)
    ensures Holds(kernels, Node(Constant(Int(1)), [], [one]), env) && Holds(kernels, Node(Add, [i, one], [o]), env)
  {
    assert Vals(env, []) == [] && Vals(env, [one]) == [env(one)] && Vals(env, [i, one]) == [env(i), env(one)]
      && Vals(env, [o]) == [env(o)];
  }

  /** So it runs whenever the body does. */
  lemma BodyMadeRuns(body0: map<NodeId, Node>, counted: map<NodeId, Node>, body: map<NodeId, Node>, p: Pushes,
                     inside: nat)
    requires BodyMade(body0, counted, body, p, inside)
    ensures ForwardBodyRuns(body0, body, p, inside) && Distinct(CountIns(p))
  {
    hide NodesBelow, Within, CountNodes, Inserting, Countable, Solves, Pushing, AgreeBelow;
    PairsDistinct(p.pushIns, p.pushOuts, inside + 3);
    forall v | v in p.pushIns ensures v != p.countIn { assert v in p.pushIns + p.pushOuts; }
    DistinctConcat([p.countIn], p.pushIns);
    forall kernels: Kernels, benv: Env, start: Env | Solves(kernels, body0, benv) && Countable(p, start)
      ensures ForwardBodyContinues(kernels, body, p, inside, benv, start)
    {
      PushingMeans(body0, counted, body, p, inside, benv, start);
      PushingRuns(kernels, body0, counted, body, p, inside, benv, start);
      assert AgreeAt(CountIns(p), start, Pushing(benv, p, start));
    }
  }

  lemma PushingRuns(kernels: Kernels, body0: map<NodeId, Node>, counted: map<NodeId, Node>, body: map<NodeId, Node>,
                    p: Pushes, inside: nat, benv: Env, start: Env)
    requires BodyMade(body0, counted, body, p, inside) && Countable(p, start) && Solves(kernels, body0, benv)
    requires |p.pushIns| == |p.pushOuts| == |p.values|
    ensures Solves(kernels, body, Pushing(benv, p, start))
  {
    hide Pushing, Holds, NodesBelow, InPairs, AllIn;
    var e := Pushing(benv, p, start);
    PushingMeans(body0, counted, body, p, inside, benv, start);
    SolvesAlike(kernels, body0, benv, e, inside);
    CounterHolds(kernels, e, p.one, p.countIn, p.countOut);
    forall n | n in body ensures Holds(kernels, body[n], e) {
      if n in body0 {
        assert body[n] == body0[n];
      } else if n in counted {
        assert body[n] == counted[n];
      } else {
        assert Inserting(body[n], p.values, p.pushIns, p.pushOuts);
        var r :| 0 <= r < |p.pushIns| && r < |p.values|
          && body[n] == Node(SequenceInsert, [p.pushIns[r], p.values[r]], [p.pushOuts[r]]);
        InsertHolds(kernels, e, p.pushIns[r], p.values[r], p.pushOuts[r]);
      }
    }
  }

  lemma InsertsNone(body: map<NodeId, Node>, values: seq<ValueId>)
    ensures Inserts(body, values, [], [], 0)
  {
  }

  ghost predicate Empties(outer: map<NodeId, Node>, stackIns: seq<ValueId>) {
    forall r :: 0 <= r < |stackIns| ==> Has(outer, Node(SequenceConstruct, [], [stackIns[r]]))
  }

  lemma EmptiesMore(before: map<NodeId, Node>, outer: map<NodeId, Node>, stackIns: seq<ValueId>, v: ValueId)
    requires Empties(before, stackIns) && Within(before, outer) && Has(outer, Node(SequenceConstruct, [], [v]))
    ensures Empties(outer, stackIns + [v])
  {
    hide Has, Within;
    forall r | 0 <= r < |stackIns| ensures Has(outer, Node(SequenceConstruct, [], [stackIns[r]])) {
      HasWithin(before, outer, Node(SequenceConstruct, [], [stackIns[r]]));
    }
  }

  /** Empty stacks outside the loop. */
  method EmptyStacks(gc: GradientContext, count: nat) returns (stackIns: seq<ValueId>)
    requires gc.Ok()
    modifies gc.graph
    ensures gc.Ok() && gc.graph.nextValue >= old(gc.graph.nextValue)
    ensures Grown(old(gc.graph.node), gc.retained, gc.graph.node, gc.retained)
    ensures |stackIns| == count && Empties(gc.graph.node, stackIns) && AllIn(stackIns, gc.graph.nextValue)
    ensures OldWriters(old(gc.graph.producer), gc.graph.producer, old(gc.graph.nextValue))
  {
    hide DefUse, Written, Below, Has, Within, Grown, NodesBelow, Newer, AllSound, Placeholders, AllWithin, Empties,
      gc.g.Ssa;
    stackIns := [];
    GrownSelf(gc.graph.node, gc.retained);
    NoEmpties(gc.graph.node);
    while |stackIns| < count
      modifies gc.graph
      invariant |stackIns| <= count && gc.Ok() && gc.graph.nextValue >= old(gc.graph.nextValue)
      invariant Grown(old(gc.graph.node), gc.retained, gc.graph.node, gc.retained)
      invariant Empties(gc.graph.node, stackIns) && AllIn(stackIns, gc.graph.nextValue)
      invariant OldWriters(old(gc.graph.producer), gc.graph.producer, old(gc.graph.nextValue))
    {
      ghost var before := gc.graph.node;
      var v := gc.Op(SequenceConstruct, []);
      GrownTrans(old(gc.graph.node), gc.retained, before, gc.retained, gc.graph.node, gc.retained);
      GrownIsWithin(before, gc.retained, gc.graph.node, gc.retained);
      EmptiesMore(before, gc.graph.node, stackIns, v);
      stackIns := stackIns + [v];
    }
  }

  lemma NoEmpties(outer: map<NodeId, Node>)
    ensures Empties(outer, [])
  {
  }

  /** New values outside the loop, unlike any of before. */
  method NewValues(gc: GradientContext, count: nat) returns (vs: seq<ValueId>)
    requires gc.Ok()
    modifies gc.graph`nextValue
    ensures gc.Ok() && gc.graph.nextValue >= old(gc.graph.nextValue)
    ensures |vs| == count && AllIn(vs, gc.graph.nextValue) && forall v :: v in vs ==> v >= old(gc.graph.nextValue)
    ensures forall k :: 0 <= k < count ==> vs[k] == old(gc.graph.nextValue) + k && vs[k] !in gc.graph.producer
  {
    hide DefUse, Written, Below, NodesBelow, Newer, AllSound, Placeholders, AllWithin, gc.g.Ssa;
    vs := [];
    while |vs| < count
      modifies gc.graph`nextValue
      invariant |vs| <= count && gc.Ok() && gc.graph.nextValue >= old(gc.graph.nextValue)
      invariant AllIn(vs, gc.graph.nextValue) && forall v :: v in vs ==> v >= old(gc.graph.nextValue)
      invariant gc.graph.nextValue == old(gc.graph.nextValue) + |vs|
      invariant forall k :: 0 <= k < |vs| ==> vs[k] == old(gc.graph.nextValue) + k && vs[k] !in gc.graph.producer
    {
      var v := gc.NewValue();
      vs := vs + [v];
    }
  }

  /** New values, increasing, that no node writes. */
  ghost predicate Consecutive(vs: seq<ValueId>, producer: map<ValueId, NodeId>) {
    && (forall i, k :: 0 <= i < k < |vs| ==> vs[i] < vs[k])
    && (forall i :: 0 <= i < |vs| ==> vs[i] !in producer)
  }

  lemma ConsecutiveLater(vs: seq<ValueId>, producer: map<ValueId, NodeId>, producer': map<ValueId, NodeId>, bound: nat)
    requires Consecutive(vs, producer) && AllIn(vs, bound) && OldWriters(producer, producer', bound)
    ensures Consecutive(vs, producer')
  {
    assert forall i :: 0 <= i < |vs| ==> vs[i] in vs;
  }

  lemma OldWritersTrans(a: map<ValueId, NodeId>, b: map<ValueId, NodeId>, c: map<ValueId, NodeId>, low: nat, high: nat)
    requires OldWriters(a, b, low) && OldWriters(b, c, high) && low <= high
    ensures OldWriters(a, c, low)
  {
  }

  /** The stacks, in the loop's lists: the part of LoopGradFn after the backward body is made. */
  method PushRetained(gc: GradientContext, loop: LoopNode, p0: Pushes, values: seq<ValueId>) returns (p: Pushes)
    requires gc.Ok() && !gc.twoGraphs && loop.Ok(gc.graph.nextValue) && gc.graph != loop.body
    requires AllIn(values, loop.body.nextValue) && Counts(gc.graph.node, loop.body.node, p0)
    modifies gc.graph, loop.body, loop`inputs, loop`outputs, loop`bodyInputs, loop`bodyOutputs
    ensures gc.Ok() && loop.Ok(gc.graph.nextValue) && old(gc.graph.nextValue) <= gc.graph.nextValue
    ensures Grown(old(gc.graph.node), gc.retained, gc.graph.node, gc.retained)
    ensures Within(old(loop.body.node), loop.body.node)
    ensures Counts(gc.graph.node, loop.body.node, p) && Stacks(gc.graph.node, loop.body.node, p)
    ensures p == p0.(values := values, pushIns := p.pushIns, pushOuts := p.pushOuts, stackIns := p.stackIns,
                     stackOuts := p.stackOuts)
    ensures loop.inputs == old(loop.inputs) + p.stackIns && loop.outputs == old(loop.outputs) + p.stackOuts
    ensures loop.bodyInputs == old(loop.bodyInputs) + p.pushIns
    ensures loop.bodyOutputs == old(loop.bodyOutputs) + p.pushOuts
    ensures forall v :: v in p.stackOuts ==> old(gc.graph.nextValue) <= v < gc.graph.nextValue
    ensures OldWriters(old(gc.graph.producer), gc.graph.producer, old(gc.graph.nextValue))
    ensures Consecutive(p.stackOuts, gc.graph.producer)
    ensures OnlyInserts(old(loop.body.node), loop.body.node, values, p.pushIns, p.pushOuts, old(loop.body.nextValue))
  {
    hide DefUse, Written, Below, Has, Within, Grown, NodesBelow, Newer, AllSound, Placeholders, AllWithin, Empties,
      gc.g.Ssa, Inserts;
    var pushIns, pushOuts := PushInBody(loop.body, values);
    loop.bodyInputs, loop.bodyOutputs := loop.bodyInputs + pushIns, loop.bodyOutputs + pushOuts;
    var stackIns := EmptyStacks(gc, |values|);
    loop.inputs := loop.inputs + stackIns;
    var stackOuts := NewValues(gc, |values|);
    loop.outputs := loop.outputs + stackOuts;
    p := p0.(values := values, pushIns := pushIns, pushOuts := pushOuts, stackIns := stackIns, stackOuts := stackOuts);
    GrownIsWithin(old(gc.graph.node), gc.retained, gc.graph.node, gc.retained);
    CountsMore(old(gc.graph.node), old(loop.body.node), gc.graph.node, loop.body.node, p0, p);
    StacksMade(gc.graph.node, loop.body.node, p);
  }

  lemma StacksMade(outer: map<NodeId, Node>, body: map<NodeId, Node>, p: Pushes)
    requires |p.stackIns| == |p.stackOuts| == |p.values| && Empties(outer, p.stackIns)
    requires Inserts(body, p.values, p.pushIns, p.pushOuts, |p.values|)
    ensures Stacks(outer, body, p)
  {
    hide Has;
  }

  lemma CountsMore(outer0: map<NodeId, Node>, body0: map<NodeId, Node>, outer: map<NodeId, Node>,
                   body: map<NodeId, Node>, p0: Pushes, p: Pushes)
    requires Counts(outer0, body0, p0) && Within(outer0, outer) && Within(body0, body)
    requires p.zero == p0.zero && p.one == p0.one && p.countIn == p0.countIn && p.countOut == p0.countOut
    ensures Counts(outer, body, p)
  {
    hide Has, Within;
    HasWithin(outer0, outer, Node(Constant(Int(0)), [], [p.zero]));
    HasWithin(body0, body, Node(Constant(Int(1)), [], [p.one]));
    HasWithin(body0, body, Node(Add, [p.countIn, p.one], [p.countOut]));
  }

  // ---- the body's gradient ----

  /** Gradients of the body's states come in through Identity nodes. */
  ghost predicate ComesThrough(node: map<NodeId, Node>, ys: seq<ValueId>, gradIns: seq<ValueId>, first: Grads, k: nat) {
    && k <= |ys| && |gradIns| == k
    && forall i :: 0 <= i < k ==> ys[i] in first && Has(node, Node(Identity, [gradIns[i]], [first[ys[i]]]))
  }

  lemma ComesThroughMore(before: map<NodeId, Node>, node: map<NodeId, Node>, ys: seq<ValueId>, gradIns: seq<ValueId>,
                         first: Grads, k: nat, gy: ValueId, v: ValueId)
    requires ComesThrough(before, ys, gradIns, first, k) && k < |ys| && Within(before, node) && Distinct(ys)
    requires Has(node, Node(Identity, [gy], [v]))
    ensures ComesThrough(node, ys, gradIns + [gy], first[ys[k] := v], k + 1)
  {
    hide Has, Within;
    forall i | 0 <= i < k ensures Has(node, Node(Identity, [gradIns[i]], [first[ys[i]]])) {
      HasWithin(before, node, Node(Identity, [gradIns[i]], [first[ys[i]]]));
    }
  }

  lemma ComesThroughWithin(before: map<NodeId, Node>, node: map<NodeId, Node>, ys: seq<ValueId>, gradIns: seq<ValueId>,
                           first: Grads, k: nat)
    requires ComesThrough(before, ys, gradIns, first, k) && Within(before, node)
    ensures ComesThrough(node, ys, gradIns, first, k)
  {
    hide Has, Within;
    forall i | 0 <= i < k ensures Has(node, Node(Identity, [gradIns[i]], [first[ys[i]]])) {
      HasWithin(before, node, Node(Identity, [gradIns[i]], [first[ys[i]]]));
    }
  }

  lemma ComesThroughNone(node: map<NodeId, Node>, ys: seq<ValueId>)
    ensures ComesThrough(node, ys, [], map[], 0)
  {
  }

  lemma AllFromMore(before: map<NodeId, Node>, after: map<NodeId, Node>, n: Node, border: ValueId)
    requires AllFrom(before, border) && NodesAdded(before, after, n) && Within(before, after)
    requires forall i :: i in n.inputs || i in n.outputs ==> border <= i
    ensures AllFrom(after, border)
  {
    forall id, i | id in after && (i in after[id].inputs || i in after[id].outputs) ensures border <= i {
      if id in before { assert after[id] == before[id]; }
    }
  }

  /** So far the graph has nothing but these nodes, and its values are made in turn. */
  ghost predicate OnlyComesThrough(node: map<NodeId, Node>, ys: seq<ValueId>, gradIns: seq<ValueId>, first: Grads,
                                   border: nat, k: nat) {
    && k <= |ys| && |gradIns| == k
    && (forall i :: 0 <= i < k ==>
          ys[i] in first && gradIns[i] == border + 2 + 2 * i && first[ys[i]] == border + 3 + 2 * i)
    && (forall n :: n in node ==> Coming(node[n], ys, gradIns, first, k))
  }

  ghost predicate Coming(n: Node, ys: seq<ValueId>, gradIns: seq<ValueId>, first: Grads, k: nat) {
    exists i :: 0 <= i < k && i < |ys| && i < |gradIns| && ys[i] in first
      && n == Node(Identity, [gradIns[i]], [first[ys[i]]])
  }

  lemma OnlyComesThroughMore(before: map<NodeId, Node>, node: map<NodeId, Node>, ys: seq<ValueId>,
                             gradIns: seq<ValueId>, first: Grads, border: nat, k: nat, gy: ValueId)
    requires OnlyComesThrough(before, ys, gradIns, first, border, k) && k < |ys| && Within(before, node) && Distinct(ys)
    requires gy == border + 2 + 2 * k && NodesAdded(before, node, Node(Identity, [gy], [gy + 1]))
    ensures OnlyComesThrough(node, ys, gradIns + [gy], first[ys[k] := gy + 1], border, k + 1)
  {
    var gradIns', first' := gradIns + [gy], first[ys[k] := gy + 1];
    forall n | n in node ensures Coming(node[n], ys, gradIns', first', k + 1) {
      if n in before {
        assert Coming(before[n], ys, gradIns, first, k);
        var i :| 0 <= i < k && before[n] == Node(Identity, [gradIns[i]], [first[ys[i]]]);
        assert gradIns'[i] == gradIns[i] && first'[ys[i]] == first[ys[i]];
      } else {
        assert gradIns'[k] == gy && first'[ys[k]] == gy + 1;
      }
    }
  }

  lemma NoGradIns(ys: seq<ValueId>, border: nat, bound: nat)
    ensures
      var none: Grads := map[];
      none.Keys == SetOf(ys[..0]) && AllWithin(none, border, bound) && AllIn([], bound)
  {
  }

  lemma MoreGradIns(ys: seq<ValueId>, gradIns: seq<ValueId>, first: Grads, k: nat, border: nat, gy: ValueId, v: ValueId,
                    bound: nat)
    requires k < |ys| && first.Keys == SetOf(ys[..k]) && AllWithin(first, border, gy) && AllIn(gradIns, gy)
    requires border <= gy < v < bound
    ensures first[ys[k] := v].Keys == SetOf(ys[..k + 1])
    ensures AllWithin(first[ys[k] := v], border, bound) && AllIn(gradIns + [gy], bound)
  {
    assert ys[..k + 1] == ys[..k] + [ys[k]];
  }

  /** The graph of the backward body, its first inputs, and the gradients that come in. */
  method BeginBackwardBody(border: nat, ys: seq<ValueId>)
    returns (graph: Graph, iter: ValueId, cond: ValueId, gradIns: seq<ValueId>, first: Grads)
    requires Distinct(ys)
    ensures fresh(graph) && graph.Valid({}) && border <= graph.nextValue && Listed(graph)
    ensures AllFrom(graph.node, border) && ComesThrough(graph.node, ys, gradIns, first, |ys|)
    ensures first.Keys == SetOf(ys) && AllWithin(first, border, graph.nextValue)
    ensures iter < graph.nextValue && cond < graph.nextValue && AllIn(gradIns, graph.nextValue)
    ensures iter == border && cond == border + 1 && OnlyComesThrough(graph.node, ys, gradIns, first, border, |ys|)
    ensures graph.nextValue == border + 2 + 2 * |ys| && NodesBelow(graph.node, graph.nextValue)
  {
    hide *;
    graph := new Graph();
    EmptyBody(graph, border);
    graph.nextValue := border;
    iter := graph.AddValue({});
    cond := graph.AddValue({});
    gradIns, first := [], map[];
    ComesThroughNone(graph.node, ys);
    NothingComesThrough(graph.node, ys, border);
    NoGradIns(ys, border, graph.nextValue);
    var k := 0;
    while k < |ys|
      modifies graph
      invariant 0 <= k <= |ys| && graph.Valid({}) && graph.nextValue == border + 2 + 2 * k && Listed(graph)
      invariant OnlyComesThrough(graph.node, ys, gradIns, first, border, k)
      invariant AllFrom(graph.node, border) && ComesThrough(graph.node, ys, gradIns, first, k)
      invariant first.Keys == SetOf(ys[..k]) && AllWithin(first, border, graph.nextValue)
      invariant AllIn(gradIns, graph.nextValue)
    {
      ghost var before := graph.node;
      var gy := graph.AddValue({});
      var v := Emit(graph, Identity, [gy]);
      AllFromMore(before, graph.node, Node(Identity, [gy], [v]), border);
      ComesThroughMore(before, graph.node, ys, gradIns, first, k, gy, v);
      OnlyComesThroughMore(before, graph.node, ys, gradIns, first, border, k, gy);
      MoreGradIns(ys, gradIns, first, k, border, gy, v, graph.nextValue);
      gradIns, first := gradIns + [gy], first[ys[k] := v];
      k := k + 1;
    }
    assert ys[..k] == ys;
    ValidIsBelow(graph);
  }

  lemma ValidIsBelow(graph: Graph)
    requires graph.Valid({})
    ensures NodesBelow(graph.node, graph.nextValue)
  {
    hide DefUse, Written;
  }

  lemma NothingComesThrough(node: map<NodeId, Node>, ys: seq<ValueId>, border: nat)
    requires node == map[]
    ensures OnlyComesThrough(node, ys, [], map[], border, 0)
  {
  }

  lemma EmptyBody(graph: Graph, border: nat)
    requires graph.Valid({}) && graph.node == map[] && graph.producer == map[]
    ensures AllFrom(graph.node, border) && Below(graph.node, graph.producer, graph.nextNode, border) && Listed(graph)
  {
  }

  lemma InputsIndependent(g: Snapshot, inputs: seq<ValueId>)
    requires Complete(g, inputs) && 2 <= |inputs|
    ensures Independent(g, inputs[2..])
  {
    hide g.DefUse, g.Ssa, Closed;
    assert forall i :: 0 <= i < |inputs| - 2 ==> inputs[2..][i] == inputs[2 + i] && inputs[2 + i] in inputs;
  }

  /** The gradient nodes have been made: the two graphs are apart, and the result is the adjoint. */
  lemma BodyGradientMade(gc: GradientContext, ids: seq<NodeId>, d: BodyGradient, inputs: seq<ValueId>, bound: nat)
    requires gc.Ok() && gc.twoGraphs && d.g == gc.g && d.node == gc.graph.node && d.border == gc.border
    requires d.retained == gc.retained && d.grad == gc.grad && RetainedByAll(gc.g, map[], gc.retained, true, ids)
    requires AllFrom(gc.first, d.border) && Within(gc.first, gc.graph.node)
    requires AllWithin(d.first, d.border, bound)
    requires NodesBelow(gc.g.node, d.border) && (forall v :: v in gc.g.producer ==> v < d.border)
    requires AllIn(d.xs, d.border) && AllIn(d.ys, d.border)
    ensures d.TwoGraphs()
  {
    hide DefUse, Written, Below, gc.g.Ssa, Placeholders;
    forall v | v in d.retained ensures v < d.border <= d.retained[v] {
      assert ReadBy(gc.g, ids, v);
    }
    forall n, v | n in d.node && (v in d.node[n].inputs || v in d.node[n].outputs) ensures d.border <= v {
      if n in gc.first { assert d.node[n] == gc.first[n]; }
    }
  }

  /** On the values of a forward step, whatever gradients come in, the gradient nodes can be run. */
  ghost predicate GradientBodyRuns(d: BodyGradient, gradIns: seq<ValueId>, iter: ValueId, cond: ValueId) {
    forall kernels: Kernels, fenv: Env, start: Env :: Solves(kernels, d.g.node, fenv) ==>
      GradientBodyContinues(kernels, d, gradIns, iter, cond, fenv, start)
  }

  ghost predicate GradientBodyContinues(kernels: Kernels, d: BodyGradient, gradIns: seq<ValueId>, iter: ValueId,
                                        cond: ValueId, fenv: Env, start: Env) {
    exists env: Env :: GradientBodyOn(kernels, d, gradIns, iter, cond, fenv, start, env)
  }

  ghost predicate GradientBodyOn(kernels: Kernels, d: BodyGradient, gradIns: seq<ValueId>, iter: ValueId, cond: ValueId,
                                 fenv: Env, start: Env, env: Env) {
    && Solves(kernels, d.node, env) && AgreeAt([iter, cond] + gradIns, start, env)
    && forall v :: v in d.retained ==> env(d.retained[v]) == fenv(v)
  }

  /** The gradients that come in, and nothing else, beside the forward values. */
  function Incoming(fenv: Env, start: Env, border: nat, states: nat): Env {
    (v: ValueId) => if v < border then fenv(v)
      else if border + 2 <= v < border + 2 + 2 * states && (v - border) % 2 == 1 then start(v - 1) else start(v)
  }

  lemma ComingHolds(kernels: Kernels, fenv: Env, start: Env, border: nat, states: nat, i: nat)
    requires i < states
    ensures Holds(kernels, Node(Identity, [border + 2 + 2 * i], [border + 3 + 2 * i]),
                  Incoming(fenv, start, border, states))
  {
    var e, v, w := Incoming(fenv, start, border, states), border + 2 + 2 * i, border + 3 + 2 * i;
    ComingSame(fenv, start, border, states, i);
    hide Incoming, Holds;
    IdentityHolds(kernels, e, v, w);
  }

  lemma ComingSame(fenv: Env, start: Env, border: nat, states: nat, i: nat)
    requires i < states
    ensures Incoming(fenv, start, border, states)(border + 3 + 2 * i) ==
      Incoming(fenv, start, border, states)(border + 2 + 2 * i)
  {
    assert (border + 3 + 2 * i - border) % 2 == 1 && (border + 2 + 2 * i - border) % 2 == 0;
  }
  lemma IncomingRuns(kernels: Kernels, node: map<NodeId, Node>, ys: seq<ValueId>, gradIns: seq<ValueId>, first: Grads,
                     border: nat, fenv: Env, start: Env)
    requires OnlyComesThrough(node, ys, gradIns, first, border, |ys|)
    ensures Solves(kernels, node, Incoming(fenv, start, border, |ys|))
    ensures AgreeAt([border, border + 1] + gradIns, start, Incoming(fenv, start, border, |ys|))
    ensures AgreeBelow(fenv, Incoming(fenv, start, border, |ys|), border)
  {
    hide Holds, Incoming;
    forall n | n in node ensures Holds(kernels, node[n], Incoming(fenv, start, border, |ys|)) {
      assert Coming(node[n], ys, gradIns, first, |ys|);
      var i :| 0 <= i < |ys| && node[n] == Node(Identity, [gradIns[i]], [first[ys[i]]]);
      ComingHolds(kernels, fenv, start, border, |ys|, i);
    }
    IncomingAgrees(ys, gradIns, first, border, fenv, start);
  }

  lemma IncomingAgrees(ys: seq<ValueId>, gradIns: seq<ValueId>, first: Grads, border: nat, fenv: Env, start: Env)
    requires |gradIns| == |ys| && forall i :: 0 <= i < |ys| ==> gradIns[i] == border + 2 + 2 * i
    ensures AgreeAt([border, border + 1] + gradIns, start, Incoming(fenv, start, border, |ys|))
    ensures AgreeBelow(fenv, Incoming(fenv, start, border, |ys|), border)
  {
    hide Incoming;
    var vs := [border, border + 1] + gradIns;
    forall i | 0 <= i < |vs| ensures start(vs[i]) == Incoming(fenv, start, border, |ys|)(vs[i]) {
      if i < 2 {
        FirstUnchanged(fenv, start, border, |ys|, i);
      } else {
        assert vs[i] == border + 2 + 2 * (i - 2);
        EvenUnchanged(fenv, start, border, |ys|, i - 2);
      }
    }
    BelowUnchanged(fenv, start, border, |ys|);
  }

  lemma FirstUnchanged(fenv: Env, start: Env, border: nat, states: nat, i: nat)
    requires i < 2
    ensures Incoming(fenv, start, border, states)(border + i) == start(border + i)
  {
  }

  lemma EvenUnchanged(fenv: Env, start: Env, border: nat, states: nat, i: nat)
    ensures Incoming(fenv, start, border, states)(border + 2 + 2 * i) == start(border + 2 + 2 * i)
  {
    assert (border + 2 + 2 * i - border) % 2 == 0;
  }

  lemma BelowUnchanged(fenv: Env, start: Env, border: nat, states: nat)
    ensures AgreeBelow(fenv, Incoming(fenv, start, border, states), border)
  {
  }

  /** What the context knows once the gradient nodes are there. */
  lemma GradientBodyMade(gc: GradientContext, d: BodyGradient, first: map<NodeId, Node>, gradIns: seq<ValueId>)
    requires gc.Ok() && d.g == gc.g && d.node == gc.graph.node && d.retained == gc.retained && gc.first == first
    requires NodesBelow(gc.g.node, d.border) && d.border + 2 + 2 * |d.ys| <= gc.base && NodesBelow(first, gc.base)
    requires Within(first, gc.graph.node) && forall v :: v in d.retained ==> v < d.border
    requires OnlyComesThrough(first, d.ys, gradIns, d.first, d.border, |d.ys|)
    ensures GradientBodyRuns(d, gradIns, d.border, d.border + 1)
  {
    hide DefUse, Newer, AllSound, Within, NodesBelow, OnlyComesThrough, GradientBodyOn, Placeholders, AllWithin;
    NewerAnyway(gc.first, gc.graph.node, gc.base, gc.border);
    NodesBelowLater(gc.g.node, d.border, gc.base);
    GraphIsBelow(gc);
    assert Graphs(d.g, first, d.node, gc.graph.producer, d.retained, gc.base);
    var cond := d.border + 1;
    forall kernels: Kernels, fenv: Env, start: Env | Solves(kernels, d.g.node, fenv)
      ensures GradientBodyContinues(kernels, d, gradIns, d.border, cond, fenv, start)
    {
      var env := GradientBodyRun(kernels, d, first, gc.graph.producer, gradIns, gc.base, gc.graph.nextValue, fenv,
                                 start);
    }
  }

  lemma RetainsNoConstant(gc: GradientContext)
    requires gc.Ok()
    ensures NoneConstant(gc.g.node, gc.retained.Keys)
  {
  }

  lemma GraphIsBelow(gc: GradientContext)
    requires gc.Ok()
    ensures NodesBelow(gc.graph.node, gc.graph.nextValue) && gc.base <= gc.graph.nextValue
    ensures Written(gc.graph.node, gc.graph.producer, {})
    ensures Placeholders(gc.retained, gc.graph.producer) && forall v :: v in gc.retained ==> gc.base <= gc.retained[v]
  {
    hide DefUse, Newer, AllSound, AllWithin;
  }

  lemma GradientBodyRun(kernels: Kernels, d: BodyGradient, first: map<NodeId, Node>, producer: map<ValueId, NodeId>,
                        gradIns: seq<ValueId>, base: nat, bound: nat, fenv: Env, start: Env)
    returns (env: Env)
    requires Graphs(d.g, first, d.node, producer, d.retained, base) && NodesBelow(d.node, bound) && base <= bound
    requires NodesBelow(d.g.node, d.border) && d.border + 2 + 2 * |d.ys| <= base && Solves(kernels, d.g.node, fenv)
    requires OnlyComesThrough(first, d.ys, gradIns, d.first, d.border, |d.ys|)
    requires forall v :: v in d.retained ==> v < d.border
    ensures GradientBodyOn(kernels, d, gradIns, d.border, d.border + 1, fenv, start, env)
  {
    hide Solves, Graphs, Incoming, NodesBelow, Coming;
    var mid := Incoming(fenv, start, d.border, |d.ys|);
    IncomingRuns(kernels, first, d.ys, gradIns, d.first, d.border, fenv, start);
    SolvesAlike(kernels, d.g.node, fenv, mid, d.border);
    env := RunExtends(kernels, d.g, first, d.node, producer, d.retained, mid, base, bound);
    var ins := [d.border, d.border + 1] + gradIns;
    forall i | 0 <= i < |ins| ensures start(ins[i]) == env(ins[i]) {
      assert ins[i] < base;
    }
  }

  /** GenerateGradientNodes on the body. */
  method DifferentiateBody(body: Graph, bodyNulls: set<ValueId>, inputs: seq<ValueId>, ys: seq<ValueId>)
    returns (graph: Graph, iter: ValueId, cond: ValueId, gradIns: seq<ValueId>, retained: map<ValueId, ValueId>,
             grad: Grads, ghost d: BodyGradient)
    requires body.Valid({}) && Listed(body) && 2 <= |inputs| && AllIn(inputs, body.nextValue)
    requires Complete(Snapshot(body.node, body.users, body.producer, bodyNulls), inputs)
    requires Fitting(Snapshot(body.node, body.users, body.producer, bodyNulls)) && Distinct(ys)
    requires AllIn(ys, body.nextValue)
    ensures fresh(graph) && graph.Valid({}) && d.TwoGraphs() && d.Adjoint()
    ensures d.node == graph.node && d.g == Snapshot(body.node, body.users, body.producer, bodyNulls)
    ensures d.retained == retained && d.grad == grad && d.xs == inputs[2..] && d.ys == ys && d.border == body.nextValue
    ensures ComesThrough(graph.node, ys, gradIns, d.first, |ys|)
    ensures Placeholders(retained, graph.producer) && AllWithin(retained, d.border, graph.nextValue)
    ensures AllWithin(grad, d.border, graph.nextValue)
    ensures iter < graph.nextValue && cond < graph.nextValue && AllIn(gradIns, graph.nextValue)
    ensures GradientBodyRuns(d, gradIns, iter, cond)
    ensures BodyInsMade(gradIns, iter, cond, d.border, graph.nextValue, |ys|)
    ensures NodesBelow(d.node, graph.nextValue) && AllReach(d.g.node, d.grad, d.xs, d.ys)
    ensures NoneConstant(d.g.node, retained.Keys)
  {
    hide NoneConstant;
    hide GradientBodyRuns, OnlyComesThrough, AllReach, Touched;
    hide DefUse, Written, AllFrom, ComesThrough, Fitting, Follows, Within, Closed, GoodInputs, Chosen, Independent,
      IsAdjoint;
    hide Newer, AllSound, AllWithin, Placeholders, RetainedByAll, Listed, Grown, Distinct;
    var first: Grads;
    var border := body.nextValue;
    graph, iter, cond, gradIns, first := BeginBackwardBody(border, ys);
    var g := Snapshot(body.node, body.users, body.producer, bodyNulls);
    NodesBelowLater(g.node, border, graph.nextValue);
    LessSlice(inputs, 2, border, graph.nextValue);
    LessLater(ys, border, graph.nextValue);
    var gc := new GradientContext(graph, g, true, border, first);
    var live := GetLiveNodes(body);
    ghost var ids: seq<NodeId>, needed: set<NodeId>;
    ids, needed := GenerateGradientNodes(gc, inputs, live, inputs[2..], ys);
    retained, grad := gc.retained, gc.grad;
    d := BodyGradient(g, graph.node, border, retained, first, grad, inputs[2..], ys);
    GrownIsWithin(gc.first, map[], graph.node, gc.retained);
    ComesThroughWithin(gc.first, graph.node, ys, gradIns, first, |ys|);
    InputsIndependent(g, inputs);
    BodyGradientMade(gc, ids, d, inputs, gc.base);
    AllReachNow(d.g, inputs, d.xs, d.ys, needed, ids, d.first, d.grad);
    TwoGraphsRetained(d);
    RetainsNoConstant(gc);
    GraphIsBelow(gc);
    GradientBodyMade(gc, d, gc.first, gradIns);
    BodyInsAre(gc.first, ys, gradIns, d.first, d.border, graph.nextValue);
  }

  lemma TwoGraphsRetained(d: BodyGradient)
    requires d.TwoGraphs()
    ensures NodesBelow(d.g.node, d.border) && forall v :: v in d.retained ==> v < d.border
  {
  }

  /** The inputs of the backward body so far. */
  ghost predicate BodyInsMade(gradIns: seq<ValueId>, iter: ValueId, cond: ValueId, border: nat, bound: nat,
                              states: nat) {
    && iter == border && cond == border + 1 && |gradIns| == states && border + 2 + 2 * states <= bound
    && forall i :: 0 <= i < states ==> gradIns[i] == border + 2 + 2 * i
  }

  lemma BodyInsAre(node: map<NodeId, Node>, ys: seq<ValueId>, gradIns: seq<ValueId>, first: Grads, border: nat,
                   bound: nat)
    requires OnlyComesThrough(node, ys, gradIns, first, border, |ys|) && border + 2 + 2 * |ys| <= bound
    ensures BodyInsMade(gradIns, border, border + 1, border, bound, |ys|)
  {
  }

  lemma LessSlice(vs: seq<ValueId>, k: nat, bound: nat, bound': nat)
    requires AllIn(vs, bound) && k <= |vs| && bound <= bound'
    ensures AllIn(vs[k..], bound) && AllIn(vs[k..], bound')
  {
    assert forall i :: k <= i < |vs| ==> vs[i] in vs && vs[k..][i - k] == vs[i];
  }

  lemma NodesBelowLater(node: map<NodeId, Node>, bound: nat, bound': nat)
    requires bound <= bound'
    ensures NodesBelow(node, bound) ==> NodesBelow(node, bound')
  {
  }

  /** The node that hands the gradient of `xs[i]`, or null, to the loop. */
  function OutNode(xs: seq<ValueId>, grad: Grads, i: nat, out: ValueId): Node
    requires i < |xs|
  {
    if xs[i] in grad then Node(Identity, [grad[xs[i]]], [out]) else Node(Constant(Null), [], [out])
  }

  ghost predicate GoOut(body: map<NodeId, Node>, xs: seq<ValueId>, grad: Grads, outs: seq<ValueId>, k: nat) {
    && k <= |xs| && |outs| == k
    && forall i :: 0 <= i < k ==> Has(body, OutNode(xs, grad, i, outs[i]))
  }

  lemma GoOutMore(before: map<NodeId, Node>, body: map<NodeId, Node>, xs: seq<ValueId>, grad: Grads, outs: seq<ValueId>,
                  k: nat, out: ValueId)
    requires GoOut(before, xs, grad, outs, k) && Within(before, body) && k < |xs|
    requires Has(body, OutNode(xs, grad, k, out))
    ensures GoOut(body, xs, grad, outs + [out], k + 1)
  {
    hide Has, Within, OutNode;
    forall i | 0 <= i < k ensures Has(body, OutNode(xs, grad, i, outs[i])) {
      HasWithin(before, body, OutNode(xs, grad, i, outs[i]));
    }
  }

  lemma GoOutNone(body: map<NodeId, Node>, xs: seq<ValueId>, grad: Grads)
    ensures GoOut(body, xs, grad, [], 0)
  {
  }

  /** The retained placeholders are still to be written. */
  ghost predicate Unwritten(graph: Graph, retained: map<ValueId, ValueId>, vs: set<ValueId>)
    reads graph
  {
    && vs <= retained.Keys
    && (forall v :: v in vs ==> retained[v] !in graph.producer && retained[v] < graph.nextValue)
    && (forall v, w :: v in vs && w in vs && retained[v] == retained[w] ==> v == w)
  }

  /** Only the condition and these nodes are new, and their values are made in turn. */
  ghost predicate OnlyGoOut(before: map<NodeId, Node>, after: map<NodeId, Node>, xs: seq<ValueId>, grad: Grads,
                            condOut: ValueId, outs: seq<ValueId>) {
    && |outs| <= |xs| && (forall i :: 0 <= i < |outs| ==> outs[i] == condOut + 1 + i)
    && forall n :: n in after && n !in before ==> Leaving(after[n], xs, grad, condOut, outs)
  }

  ghost predicate Leaving(n: Node, xs: seq<ValueId>, grad: Grads, condOut: ValueId, outs: seq<ValueId>) {
    || n == Node(Constant(Bool(true)), [], [condOut])
    || exists i :: 0 <= i < |outs| && i < |xs| && n == OutNode(xs, grad, i, outs[i])
  }

  lemma OnlyGoOutMore(first: map<NodeId, Node>, before: map<NodeId, Node>, body: map<NodeId, Node>, xs: seq<ValueId>,
                      grad: Grads, condOut: ValueId, outs: seq<ValueId>, out: ValueId)
    requires OnlyGoOut(first, before, xs, grad, condOut, outs) && Within(before, body) && |outs| < |xs|
    requires out == condOut + 1 + |outs| && NodesAdded(before, body, OutNode(xs, grad, |outs|, out))
    ensures OnlyGoOut(first, body, xs, grad, condOut, outs + [out])
  {
    hide OutNode;
    forall n | n in body && n !in first ensures Leaving(body[n], xs, grad, condOut, outs + [out]) {
      if n in before {
        assert Leaving(before[n], xs, grad, condOut, outs);
        if before[n] != Node(Constant(Bool(true)), [], [condOut]) {
          var i :| 0 <= i < |outs| && i < |xs| && before[n] == OutNode(xs, grad, i, outs[i]);
          assert (outs + [out])[i] == outs[i];
        }
      } else {
        assert (outs + [out])[|outs|] == out;
      }
    }
  }

  lemma OnlyCondition(before: map<NodeId, Node>, body: map<NodeId, Node>, xs: seq<ValueId>, grad: Grads,
                      condOut: ValueId)
    requires Within(before, body) && NodesAdded(before, body, Node(Constant(Bool(true)), [], [condOut]))
    ensures OnlyGoOut(before, body, xs, grad, condOut, [])
  {
  }

  /** Condition and gradients of the backward body. */
  method WireOut(graph: Graph, retained: map<ValueId, ValueId>, xs: seq<ValueId>, grad: Grads, states: nat)
    returns (condOut: ValueId, outs: seq<ValueId>)
    requires graph.Valid({}) && states <= |xs| && AllWithin(grad, 0, graph.nextValue)
    requires Unwritten(graph, retained, retained.Keys)
    modifies graph
    ensures graph.Valid({}) && Within(old(graph.node), graph.node) && graph.nextValue == condOut + 1 + states
    ensures Has(graph.node, Node(Constant(Bool(true)), [], [condOut])) && GoOut(graph.node, xs, grad, outs, states)
    ensures Unwritten(graph, retained, retained.Keys)
    ensures condOut < graph.nextValue && AllIn(outs, graph.nextValue)
    ensures condOut == old(graph.nextValue) && OnlyGoOut(old(graph.node), graph.node, xs, grad, condOut, outs)
  {
    hide DefUse, Written, Below, Has, Within, NodesAdded, GoOut, Listed, OnlyGoOut;
    condOut := Emit(graph, Constant(Bool(true)), []);
    outs := [];
    ghost var begun := graph.node;
    GoOutNone(graph.node, xs, grad);
    WithinItself(graph.node);
    OnlyCondition(old(graph.node), graph.node, xs, grad, condOut);
    var k := 0;
    while k < states
      modifies graph
      invariant 0 <= k <= states && graph.Valid({}) && graph.nextValue == condOut + 1 + k && |outs| == k
      invariant Within(begun, graph.node) && GoOut(graph.node, xs, grad, outs, k) && AllIn(outs, graph.nextValue)
      invariant Unwritten(graph, retained, retained.Keys)
      invariant OnlyGoOut(old(graph.node), graph.node, xs, grad, condOut, outs)
    {
      ghost var before := graph.node;
      var out;
      if xs[k] in grad {
        out := Emit(graph, Identity, [grad[xs[k]]]);
      } else {
        out := Emit(graph, Constant(Null), []);
      }
      WithinTrans(begun, before, graph.node);
      GoOutMore(before, graph.node, xs, grad, outs, k, out);
      OnlyGoOutMore(old(graph.node), before, graph.node, xs, grad, condOut, outs, out);
      outs := outs + [out];
      k := k + 1;
    }
    WithinTrans(old(graph.node), begun, graph.node);
    HasWithin(begun, graph.node, Node(Constant(Bool(true)), [], [condOut]));
  }

  ghost predicate PopsSome(body: map<NodeId, Node>, values: seq<ValueId>, popIns: seq<ValueId>, popOuts: seq<ValueId>,
                           retained: map<ValueId, ValueId>) {
    && |popIns| == |popOuts| == |values|
    && (forall r :: 0 <= r < |values| ==> values[r] in retained)
    && (forall r :: 0 <= r < |values| ==> Has(body, Node(SequencePop, [popIns[r]], [popOuts[r], retained[values[r]]])))
  }

  lemma PopsMore(before: map<NodeId, Node>, body: map<NodeId, Node>, values: seq<ValueId>, popIns: seq<ValueId>,
                 popOuts: seq<ValueId>, retained: map<ValueId, ValueId>, v: ValueId, i: ValueId, o: ValueId)
    requires PopsSome(before, values, popIns, popOuts, retained) && Within(before, body) && v in retained
    requires Has(body, Node(SequencePop, [i], [o, retained[v]]))
    ensures PopsSome(body, values + [v], popIns + [i], popOuts + [o], retained)
  {
    hide Has, Within;
    forall r | 0 <= r < |values| ensures Has(body, Node(SequencePop, [popIns[r]], [popOuts[r], retained[values[r]]])) {
      HasWithin(before, body, Node(SequencePop, [popIns[r]], [popOuts[r], retained[values[r]]]));
    }
  }

  lemma PopsNone(body: map<NodeId, Node>, retained: map<ValueId, ValueId>)
    ensures PopsSome(body, [], [], [], retained)
  {
  }

  /** Only the pops are new, and every one has two new values of its own. */
  ghost predicate OnlyPops(before: map<NodeId, Node>, after: map<NodeId, Node>, values: seq<ValueId>,
                           popIns: seq<ValueId>, popOuts: seq<ValueId>, retained: map<ValueId, ValueId>, base: nat) {
    && InPairs(popIns, popOuts, base) && |popIns| == |values|
    && forall n :: n in after && n !in before ==> Popping(after[n], values, popIns, popOuts, retained)
  }

  ghost predicate Popping(n: Node, values: seq<ValueId>, popIns: seq<ValueId>, popOuts: seq<ValueId>,
                          retained: map<ValueId, ValueId>) {
    exists r :: 0 <= r < |values| && r < |popIns| && r < |popOuts| && values[r] in retained
      && n == Node(SequencePop, [popIns[r]], [popOuts[r], retained[values[r]]])
  }

  lemma OnlyPopsMore(first: map<NodeId, Node>, before: map<NodeId, Node>, body: map<NodeId, Node>, values: seq<ValueId>,
                     popIns: seq<ValueId>, popOuts: seq<ValueId>, retained: map<ValueId, ValueId>, base: nat,
                     v: ValueId, i: ValueId)
    requires OnlyPops(first, before, values, popIns, popOuts, retained, base) && Within(before, body) && v in retained
    requires i == base + 2 * |popIns| && NodesAdded(before, body, Node(SequencePop, [i], [i + 1, retained[v]]))
    ensures OnlyPops(first, body, values + [v], popIns + [i], popOuts + [i + 1], retained, base)
  {
    forall n | n in body && n !in first
      ensures Popping(body[n], values + [v], popIns + [i], popOuts + [i + 1], retained)
    {
      if n in before {
        assert Popping(before[n], values, popIns, popOuts, retained);
        var r :| 0 <= r < |values| && r < |popIns| && values[r] in retained
          && before[n] == Node(SequencePop, [popIns[r]], [popOuts[r], retained[values[r]]]);
        assert (values + [v])[r] == values[r] && (popIns + [i])[r] == popIns[r] && (popOuts + [i + 1])[r] == popOuts[r];
      } else {
        var r := |values|;
        assert (values + [v])[r] == v && (popIns + [i])[r] == i && (popOuts + [i + 1])[r] == i + 1;
      }
    }
  }

  lemma OnlyPopsNone(body: map<NodeId, Node>, retained: map<ValueId, ValueId>, base: nat)
    ensures OnlyPops(body, body, [], [], [], retained, base)
  {
  }

  /** One SequencePop node. */
  method PopOne(graph: Graph, retained: map<ValueId, ValueId>, ghost todo: set<ValueId>, v: ValueId)
    returns (i: ValueId, o: ValueId)
    requires graph.Valid({}) && Unwritten(graph, retained, todo) && v in todo
    modifies graph
    ensures graph.Valid({}) && Within(old(graph.node), graph.node) && graph.nextValue == old(graph.nextValue) + 2
    ensures Has(graph.node, Node(SequencePop, [i], [o, retained[v]])) && Unwritten(graph, retained, todo - {v})
    ensures i == old(graph.nextValue) && o == i + 1
    ensures NodesAdded(old(graph.node), graph.node, Node(SequencePop, [i], [o, retained[v]]))
  {
    hide DefUse, Written;
    i := graph.AddValue({});
    o := graph.AddValue({});
    var n := graph.AddNode(SequencePop, [i], [o, retained[v]], {});
    assert graph.node[n] == Node(SequencePop, [i], [o, retained[v]]);
  }

  /** A SequencePop for every retained value, in any order. */
  method PopRetained(graph: Graph, retained: map<ValueId, ValueId>)
    returns (values: seq<ValueId>, popIns: seq<ValueId>, popOuts: seq<ValueId>)
    requires graph.Valid({}) && Unwritten(graph, retained, retained.Keys)
    modifies graph
    ensures graph.Valid({}) && Within(old(graph.node), graph.node)
    ensures PopsSome(graph.node, values, popIns, popOuts, retained) && SetOf(values) == retained.Keys
    ensures Distinct(values)
    ensures AllIn(popIns, graph.nextValue) && AllIn(popOuts, graph.nextValue) && graph.nextValue >= old(graph.nextValue)
    ensures OnlyPops(old(graph.node), graph.node, values, popIns, popOuts, retained, old(graph.nextValue))
  {
    hide DefUse, Written, Below, Has, Within, PopsSome, Unwritten, OnlyPops, NodesAdded;
    values, popIns, popOuts := [], [], [];
    var todo := retained.Keys;
    PopsNone(graph.node, retained);
    WithinItself(graph.node);
    OnlyPopsNone(graph.node, retained, graph.nextValue);
    while todo != {}
      modifies graph
      invariant graph.Valid({}) && todo <= retained.Keys && Unwritten(graph, retained, todo)
      invariant Within(old(graph.node), graph.node) && PopsSome(graph.node, values, popIns, popOuts, retained)
      invariant SetOf(values) == retained.Keys - todo && Distinct(values)
      invariant AllIn(popIns, graph.nextValue) && AllIn(popOuts, graph.nextValue)
      invariant graph.nextValue == old(graph.nextValue) + 2 * |popIns|
      invariant OnlyPops(old(graph.node), graph.node, values, popIns, popOuts, retained, old(graph.nextValue))
      decreases todo
    {
      ghost var before := graph.node;
      var v :| v in todo;
      assert v !in SetOf(values);
      var i, o := PopOne(graph, retained, todo, v);
      WithinTrans(old(graph.node), before, graph.node);
      PopsMore(before, graph.node, values, popIns, popOuts, retained, v, i, o);
      OnlyPopsMore(old(graph.node), before, graph.node, values, popIns, popOuts, retained, old(graph.nextValue), v, i);
      SetOfMore(values, v);
      values, popIns, popOuts := values + [v], popIns + [i], popOuts + [o];
      todo := todo - {v};
    }
  }

  // ---- the backward body runs ----

  /** The backward body: gradient nodes, what goes out, and pops, made in turn. */
  ghost predicate BackMade(d: BodyGradient, wired: map<NodeId, Node>, body: map<NodeId, Node>, b: Pops,
                           values: seq<ValueId>, states: nat) {
    && BodyInsMade(b.gradIns, b.iter, b.cond, d.border, b.condOut, states)
    && GradientBodyRuns(d, b.gradIns, b.iter, b.cond)
    && NodesBelow(d.node, b.condOut) && (forall v :: v in d.grad ==> d.grad[v] < b.condOut)
    && (forall v :: v in d.retained ==> d.retained[v] < b.condOut)
    && Within(d.node, wired) && Within(wired, body) && |b.outs| == states <= |d.xs|
    && OnlyGoOut(d.node, wired, d.xs, d.grad, b.condOut, b.outs)
    && OnlyPops(wired, body, values, b.popIns, b.popOuts, d.retained, b.condOut + 1 + states)
  }

  function Popped(start: Env, popIns: seq<ValueId>): seq<Data> {
    seq(|popIns|, r requires 0 <= r < |popIns| =>
      var s := start(popIns[r]);
      if s.Sequence? && s.elems != [] then Sequence(s.elems[..|s.elems| - 1]) else Null)
  }

  function OutData(env: Env, d: BodyGradient, states: nat): seq<Data>
    requires states <= |d.xs|
  {
    seq(states, i requires 0 <= i < states => if d.xs[i] in d.grad then env(d.grad[d.xs[i]]) else Null)
  }

  function Leave(env: Env, d: BodyGradient, b: Pops): Env
    requires |b.outs| <= |d.xs|
  {
    Set(env, [b.condOut] + b.outs, [Bool(true)] + OutData(env, d, |b.outs|))
  }

  function Pop(env: Env, b: Pops, start: Env): Env
    requires |b.popIns| == |b.popOuts|
  {
    Set(env, b.popIns + b.popOuts, Vals(start, b.popIns) + Popped(start, b.popIns))
  }

  lemma LeaveMeans(d: BodyGradient, wired: map<NodeId, Node>, body: map<NodeId, Node>, b: Pops, values: seq<ValueId>,
                   states: nat, env: Env)
    requires BackMade(d, wired, body, b, values, states)
    ensures var e := Leave(env, d, b);
      && AgreeBelow(env, e, b.condOut) && e(b.condOut) == Bool(true)
      && forall i :: 0 <= i < states ==> e(b.outs[i]) == if d.xs[i] in d.grad then e(d.grad[d.xs[i]]) else Null
  {
    hide NodesBelow, Within, GradientBodyRuns, Leaving, Popping, BodyInsMade, OnlyPops, Set;
    var vs, ds := [b.condOut] + b.outs, [Bool(true)] + OutData(env, d, |b.outs|);
    assert forall k :: 0 <= k < |vs| ==> vs[k] == b.condOut + k;
    SetAt(env, vs, ds, 0);
    SetKeepsBelow(env, vs, ds, b.condOut);
    forall i | 0 <= i < states
      ensures Leave(env, d, b)(b.outs[i]) == if d.xs[i] in d.grad then Leave(env, d, b)(d.grad[d.xs[i]]) else Null
    {
      LeaveMeansAt(d, b, env, i);
    }
  }

  lemma LeaveMeansAt(d: BodyGradient, b: Pops, env: Env, i: nat)
    requires i < |b.outs| <= |d.xs| && forall k :: 0 <= k < |b.outs| ==> b.outs[k] == b.condOut + 1 + k
    requires d.xs[i] in d.grad ==> d.grad[d.xs[i]] < b.condOut
    ensures
      Leave(env, d, b)(b.outs[i]) == if d.xs[i] in d.grad then Leave(env, d, b)(d.grad[d.xs[i]]) else Null
  {
    hide Set;
    var vs, ds := [b.condOut] + b.outs, [Bool(true)] + OutData(env, d, |b.outs|);
    assert forall k :: 0 <= k < |vs| ==> vs[k] == b.condOut + k;
    SetAt(env, vs, ds, 1 + i);
    if d.xs[i] in d.grad { SetElsewhere(env, vs, ds, d.grad[d.xs[i]]); }
  }
  lemma PopMeans(d: BodyGradient, wired: map<NodeId, Node>, body: map<NodeId, Node>, b: Pops, values: seq<ValueId>,
                 states: nat, env: Env, start: Env)
    requires BackMade(d, wired, body, b, values, states)
    ensures |b.popIns| == |b.popOuts| == |values|
    ensures var e := Pop(env, b, start);
      && AgreeBelow(env, e, b.condOut + 1 + states)
      && forall r :: 0 <= r < |values| ==>
           e(b.popIns[r]) == start(b.popIns[r]) && e(b.popOuts[r]) == Popped(start, b.popIns)[r]
  {
    hide BackMade, Popped, Set, InPairs;
    PopPairs(d, wired, body, b, values, states);
    PairsDistinct(b.popIns, b.popOuts, b.condOut + 1 + states);
    var vs, ds := b.popIns + b.popOuts, Vals(start, b.popIns) + Popped(start, b.popIns);
    SameLength(start, b.popIns);
    SetMeans(env, vs, ds);
    forall r | 0 <= r < |values|
      ensures Pop(env, b, start)(b.popIns[r]) == start(b.popIns[r])
      ensures Pop(env, b, start)(b.popOuts[r]) == Popped(start, b.popIns)[r]
    {
      assert vs[r] == b.popIns[r] && vs[|values| + r] == b.popOuts[r];
    }
  }

  lemma PopPairs(d: BodyGradient, wired: map<NodeId, Node>, body: map<NodeId, Node>, b: Pops, values: seq<ValueId>,
                 states: nat)
    requires BackMade(d, wired, body, b, values, states)
    ensures InPairs(b.popIns, b.popOuts, b.condOut + 1 + states) && |b.popIns| == |b.popOuts| == |values|
  {
    hide NodesBelow, Within, GradientBodyRuns, Leaving, Popping;
  }

  lemma SameLength(start: Env, popIns: seq<ValueId>)
    ensures |Popped(start, popIns)| == |popIns|
  {
  }

  lemma PopHolds(kernels: Kernels, env: Env, i: ValueId, o: ValueId, r: ValueId)
    requires env(i).Sequence? && env(i).elems != [] && env(o) == Sequence(env(i).elems[..|env(i).elems| - 1])
    requires env(r) == env(i).elems[|env(i).elems| - 1]
    ensures Holds(kernels, Node(SequencePop, [i], [o, r]), env)
  {
    assert Vals(env, [i]) == [env(i)] && Vals(env, [o, r]) == [env(o), env(r)];
  }

  lemma OutHolds(kernels: Kernels, env: Env, xs: seq<ValueId>, grad: Grads, i: nat, o: ValueId)
    requires i < |xs| && env(o) == if xs[i] in grad then env(grad[xs[i]]) else Null
    ensures Holds(kernels, OutNode(xs, grad, i, o), env)
  {
    assert Vals(env, [o]) == [env(o)] && Vals(env, []) == [];
    if xs[i] in grad { assert Vals(env, [grad[xs[i]]]) == [env(grad[xs[i]])]; }
  }

  lemma TrueHolds(kernels: Kernels, env: Env, c: ValueId)
    requires env(c) == Bool(true)
    ensures Holds(kernels, Node(Constant(Bool(true)), [], [c]), env)
  {
    assert Vals(env, [c]) == [env(c)];
  }

  lemma BackRuns(kernels: Kernels, d: BodyGradient, wired: map<NodeId, Node>, body: map<NodeId, Node>, p: Pushes,
                 b: Pops, states: nat, fenv: Env, start: Env, env: Env)
    requires BackMade(d, wired, body, b, p.values, states) && Poppable(p, b, fenv, start) && |b.popIns| == |b.popOuts|
    requires GradientBodyOn(kernels, d, b.gradIns, b.iter, b.cond, fenv, start, env)
    ensures Solves(kernels, body, Pop(Leave(env, d, b), b, start))
    ensures AgreeAt(BackIns(b), start, Pop(Leave(env, d, b), b, start))
  {
    hide NodesBelow, GradientBodyRuns, Leave, Pop, Holds, Poppable, Popped, BodyInsMade;
    var e1, e := Leave(env, d, b), Pop(Leave(env, d, b), b, start);
    LeaveMeans(d, wired, body, b, p.values, states, env);
    PopMeans(d, wired, body, b, p.values, states, e1, start);
    SolvesAlike(kernels, d.node, env, e, b.condOut);
    assert b.condOut < b.condOut + 1 + states;
    forall n | n in body ensures Holds(kernels, body[n], e) {
      if n in d.node {
        assert body[n] == d.node[n];
      } else if n in wired {
        assert body[n] == wired[n];
        LeavingHolds(kernels, wired[n], d, b, states, e1, e);
      } else {
        assert Popping(body[n], p.values, b.popIns, b.popOuts, d.retained);
        PoppingHolds(kernels, body[n], d, p, b, fenv, start, e);
      }
    }
    BackInsAgree(d, b, p, states, start, env, e);
  }

  lemma LeavingHolds(kernels: Kernels, n: Node, d: BodyGradient, b: Pops, states: nat, e1: Env, e: Env)
    requires Leaving(n, d.xs, d.grad, b.condOut, b.outs) && |b.outs| == states <= |d.xs|
    requires AgreeBelow(e1, e, b.condOut + 1 + states)
    requires e1(b.condOut) == Bool(true) && forall i :: 0 <= i < states ==> b.outs[i] == b.condOut + 1 + i
    requires forall i :: 0 <= i < states ==> e1(b.outs[i]) == if d.xs[i] in d.grad then e1(d.grad[d.xs[i]]) else Null
    requires forall v :: v in d.grad ==> d.grad[v] < b.condOut
    ensures Holds(kernels, n, e)
  {
    hide OutNode;
    if n == Node(Constant(Bool(true)), [], [b.condOut]) {
      TrueHolds(kernels, e, b.condOut);
    } else {
      var i :| 0 <= i < |b.outs| && i < |d.xs| && n == OutNode(d.xs, d.grad, i, b.outs[i]);
      OutHolds(kernels, e, d.xs, d.grad, i, b.outs[i]);
    }
  }

  lemma PoppingHolds(kernels: Kernels, n: Node, d: BodyGradient, p: Pushes, b: Pops, fenv: Env, start: Env, e: Env)
    requires Popping(n, p.values, b.popIns, b.popOuts, d.retained) && Poppable(p, b, fenv, start)
    requires |b.popIns| == |b.popOuts| == |p.values|
    requires forall r :: 0 <= r < |p.values| ==>
      e(b.popIns[r]) == start(b.popIns[r]) && e(b.popOuts[r]) == Popped(start, b.popIns)[r]
    requires forall v :: v in d.retained ==> e(d.retained[v]) == fenv(v)
    ensures Holds(kernels, n, e)
  {
    hide Holds, Apply;
    var r :| 0 <= r < |p.values| && r < |b.popIns| && p.values[r] in d.retained
      && n == Node(SequencePop, [b.popIns[r]], [b.popOuts[r], d.retained[p.values[r]]]);
    PopHolds(kernels, e, b.popIns[r], b.popOuts[r], d.retained[p.values[r]]);
  }

  lemma BackInsAgree(d: BodyGradient, b: Pops, p: Pushes, states: nat, start: Env, env: Env, e: Env)
    requires BodyInsMade(b.gradIns, b.iter, b.cond, d.border, b.condOut, states)
    requires AgreeAt([b.iter, b.cond] + b.gradIns, start, env)
    requires AgreeBelow(env, e, b.condOut) && |b.popIns| == |p.values|
    requires forall r :: 0 <= r < |p.values| ==> e(b.popIns[r]) == start(b.popIns[r])
    ensures AgreeAt(BackIns(b), start, e)
  {
    var ins, all := [b.iter, b.cond] + b.gradIns, BackIns(b);
    forall i | 0 <= i < |all| ensures start(all[i]) == e(all[i]) {
      if i < |ins| {
        assert all[i] == ins[i] && start(ins[i]) == env(ins[i]);
        assert ins[i] < b.condOut;
      } else {
        assert all[i] == b.popIns[i - |ins|];
      }
    }
  }

  lemma BackInsDistinct(d: BodyGradient, b: Pops, states: nat, base: nat)
    requires BodyInsMade(b.gradIns, b.iter, b.cond, d.border, b.condOut, states) && InPairs(b.popIns, b.popOuts, base)
    requires b.condOut <= base
    ensures Distinct(BackIns(b))
  {
    var all := BackIns(b);
    var k := 2 + states;
    assert all[0] == d.border && all[1] == d.border + 1;
    forall i | 2 <= i < |all| ensures all[i] == if i < k then d.border + 2 + 2 * (i - 2) else base + 2 * (i - k) {
      if i < k { assert all[i] == b.gradIns[i - 2]; } else { assert all[i] == b.popIns[i - k]; }
    }
  }

  lemma BackMadeRuns(d: BodyGradient, wired: map<NodeId, Node>, body: map<NodeId, Node>, p: Pushes, b: Pops,
                     states: nat)
    requires BackMade(d, wired, body, b, p.values, states)
    ensures BackwardBodyRuns(body, d, p, b) && Distinct(BackIns(b))
  {
    hide NodesBelow, Within, Leave, Pop, Solves, Poppable, GradientBodyOn, Leaving, Popping, BodyInsMade, AgreeAt;
    BackInsDistinct(d, b, states, b.condOut + 1 + states);
    forall kernels: Kernels, fenv: Env, start: Env | Solves(kernels, d.g.node, fenv) && Poppable(p, b, fenv, start)
      ensures BackwardBodyContinues(kernels, body, b, start)
    {
      assert GradientBodyContinues(kernels, d, b.gradIns, b.iter, b.cond, fenv, start);
      var env: Env :| GradientBodyOn(kernels, d, b.gradIns, b.iter, b.cond, fenv, start, env);
      BackRuns(kernels, d, wired, body, p, b, states, fenv, start, env);
    }
  }

  lemma SetOfMore(vs: seq<ValueId>, v: ValueId)
    ensures SetOf(vs + [v]) == SetOf(vs) + {v}
    ensures Distinct(vs) && v !in SetOf(vs) ==> Distinct(vs + [v])
  {
    assert forall x :: x in vs + [v] <==> x in vs || x == v;
  }

  // ---- the counter leaves the body fit to be differentiated ----

  lemma CountKeepsSsa(g: Snapshot, after: Snapshot, one: ValueId, countIn: ValueId, countOut: ValueId)
    requires g.Ssa() && Written(after.node, after.producer, {}) && Within(g.node, after.node)
    requires after.producer.Keys == g.producer.Keys + {one, countOut}
    requires Has(after.node, Node(Constant(Int(1)), [], [one]))
    requires Has(after.node, Node(Add, [countIn, one], [countOut]))
    ensures after.Ssa()
  {
    forall v | v in after.producer
      ensures after.producer[v] in after.node && v in after.node[after.producer[v]].outputs
    {
      if v in g.producer {
        assert after.node[g.producer[v]] == g.node[g.producer[v]];
      } else {
        var id :| id in after.node && (after.node[id] == Node(Constant(Int(1)), [], [one])
          || after.node[id] == Node(Add, [countIn, one], [countOut])) && after.node[id].outputs == [v];
        assert after.node[id].outputs[0] == v;
      }
    }
  }

  lemma CountKeepsInputs(g: Snapshot, after: Snapshot, inputs: seq<ValueId>, one: ValueId, countIn: ValueId,
                         countOut: ValueId)
    requires GoodInputs(g, inputs) && g.DefUse() && after.DefUse() && Within(g.node, after.node)
    requires after.producer.Keys == g.producer.Keys + {one, countOut} && after.nulls == g.nulls
    requires CountNodes(g.node, after.node, one, countIn, countOut) && AllIn(inputs, one) && countIn == one + 1
    requires countOut == one + 2
    requires forall v :: v in g.nulls || v in g.producer ==> v < one
    ensures GoodInputs(after, inputs + [countIn])
  {
    DistinctConcat(inputs, [countIn]);
    forall v | v in after.nulls && (v in inputs + [countIn] || v in after.producer) ensures after.Users(v) == [] {
      assert g.Users(v) == [];
      if after.Users(v) != [] {
        var n := after.Users(v)[0];
        UserReads(after, v, n);
        UserReads(g, v, n);
      }
    }
  }

  lemma CountKeepsClosed(g: Snapshot, after: Snapshot, inputs: seq<ValueId>, one: ValueId, countIn: ValueId,
                         countOut: ValueId)
    requires Closed(g, inputs, g.node.Keys) && after.Ssa() && g.Ssa() && Within(g.node, after.node)
    requires CountNodes(g.node, after.node, one, countIn, countOut) && after.nulls == g.nulls
    requires Has(after.node, Node(Constant(Int(1)), [], [one]))
    ensures Closed(after, inputs + [countIn], after.node.Keys)
  {
    forall n, v | n in after.node.Keys && n in after.node && v in after.node[n].inputs && v !in after.nulls
      ensures v in inputs + [countIn] || (v in after.producer && after.producer[v] in after.node.Keys)
    {
      if n in g.node {
        assert v in g.node[n].inputs;
        if v !in inputs {
          var w := g.producer[v];
          var i :| 0 <= i < |g.node[w].outputs| && g.node[w].outputs[i] == v;
          assert after.node[w].outputs[i] == v;
        }
      } else if v == one {
        var c :| c in after.node && after.node[c] == Node(Constant(Int(1)), [], [one]);
        assert after.node[c].outputs[0] == one;
      }
    }
  }

  lemma CountKeepsOrder(g: Snapshot, after: Snapshot, one: ValueId, countIn: ValueId, countOut: ValueId)
    requires g.AcyclicOn(g.node.Keys) && Within(g.node, after.node)
    requires CountNodes(g.node, after.node, one, countIn, countOut) && after.nulls == g.nulls && NodesBelow(g.node, one)
    requires countIn == one + 1 && countOut == one + 2
    ensures after.AcyclicOn(after.node.Keys)
  {
    var rank :| g.Ranks(g.node.Keys, rank);
    var more := map n | n in after.node :: if n in g.node then rank[n] else if after.node[n].op.Constant? then 0 else 1;
    forall a, b | a in after.node && b in after.node && after.Edge(a, b) ensures more[a] < more[b] {
      var v :| v in after.node[b].inputs && v !in after.nulls && v in after.node[a].outputs;
      assert b in g.node ==> BelowNode(g.node[b], one) && v < one;
      assert a in g.node ==> BelowNode(g.node[a], one) && v < one;
      if a in g.node && b in g.node { assert g.Edge(a, b); }
    }
    assert after.Ranks(after.node.Keys, more);
  }

  lemma CountKeepsFit(g: Snapshot, after: Snapshot, one: ValueId, countIn: ValueId, countOut: ValueId)
    requires Fitting(g) && Within(g.node, after.node) && CountNodes(g.node, after.node, one, countIn, countOut)
    ensures Fitting(after)
  {
  }

  /** With its counter the body can be differentiated still. */
  lemma CountKeepsComplete(g: Snapshot, after: Snapshot, inputs: seq<ValueId>, one: ValueId, countIn: ValueId,
                           countOut: ValueId)
    requires Complete(g, inputs) && Fitting(g) && after.DefUse() && Written(after.node, after.producer, {})
    requires Within(g.node, after.node) && CountNodes(g.node, after.node, one, countIn, countOut)
    requires after.nulls == g.nulls
    requires after.producer.Keys == g.producer.Keys + {one, countOut} && countIn == one + 1 && countOut == one + 2
    requires Has(after.node, Node(Constant(Int(1)), [], [one]))
    requires Has(after.node, Node(Add, [countIn, one], [countOut]))
    requires AllIn(inputs, one) && NodesBelow(g.node, one) && forall v :: v in g.nulls || v in g.producer ==> v < one
    ensures Complete(after, inputs + [countIn]) && Fitting(after)
  {
    hide g.DefUse, after.DefUse, Written, g.Ssa, after.Ssa, GoodInputs, Closed, NodesBelow, Within, CountNodes, Has,
      Fitting;
    hide g.AcyclicOn, after.AcyclicOn;
    CountKeepsSsa(g, after, one, countIn, countOut);
    CountKeepsInputs(g, after, inputs, one, countIn, countOut);
    CountKeepsClosed(g, after, inputs, one, countIn, countOut);
    CountKeepsOrder(g, after, one, countIn, countOut);
    CountKeepsFit(g, after, one, countIn, countOut);
  }

  // ---- gradients outside the loop ----

  /** Gradients that were missing are null. */
  ghost predicate Filled(node: map<NodeId, Node>, before: Grads, after: Grads) {
    && (forall v :: v in before ==> v in after && after[v] == before[v])
    && (forall v :: v in after && v !in before ==> Has(node, Node(Constant(Null), [], [after[v]])))
  }

  lemma FilledMeans(kernels: Kernels, node: map<NodeId, Node>, env: Env, before: Grads, after: Grads, v: ValueId)
    requires Filled(node, before, after) && Solves(kernels, node, env)
    ensures GradOf(env, after, v) == GradOf(env, before, v)
  {
    hide Has, Solves;
    if v in after && v !in before {
      HasMeans(kernels, node, env, Node(Constant(Null), [], [after[v]]));
      Nullary(kernels, env, Constant(Null), after[v]);
    }
  }

  lemma FilledMore(node: map<NodeId, Node>, node': map<NodeId, Node>, before: Grads, after: Grads, y: ValueId,
                   gy: ValueId)
    requires Filled(node, before, after) && Within(node, node') && Has(node', Node(Constant(Null), [], [gy]))
    requires y !in after
    ensures Filled(node', before, after[y := gy])
  {
    hide Has, Within;
    forall v | v in after && v !in before ensures Has(node', Node(Constant(Null), [], [after[v]])) {
      HasWithin(node, node', Node(Constant(Null), [], [after[v]]));
    }
  }

  lemma FilledWithin(node: map<NodeId, Node>, node': map<NodeId, Node>, before: Grads, after: Grads)
    requires Filled(node, before, after) && Within(node, node')
    ensures Filled(node', before, after)
  {
    hide Has, Within;
    forall v | v in after && v !in before ensures Has(node', Node(Constant(Null), [], [after[v]])) {
      HasWithin(node, node', Node(Constant(Null), [], [after[v]]));
    }
  }

  lemma FilledNone(node: map<NodeId, Node>, grad: Grads)
    ensures Filled(node, grad, grad)
  {
  }

  method FillGradients(gc: GradientContext, ys: seq<ValueId>)
    requires gc.Ok()
    modifies gc`grad, gc.graph
    ensures gc.Ok() && gc.graph.nextValue >= old(gc.graph.nextValue)
    ensures Grown(old(gc.graph.node), gc.retained, gc.graph.node, gc.retained)
    ensures Filled(gc.graph.node, old(gc.grad), gc.grad) && forall y :: y in ys ==> y in gc.grad
    ensures OldWriters(old(gc.graph.producer), gc.graph.producer, old(gc.graph.nextValue))
  {
    hide DefUse, Written, Below, Has, Within, Grown, NodesBelow, Newer, AllSound, Placeholders, Filled, gc.g.Ssa;
    FilledNone(gc.graph.node, gc.grad);
    GrownSelf(gc.graph.node, gc.retained);
    var k := 0;
    while k < |ys|
      modifies gc`grad, gc.graph
      invariant 0 <= k <= |ys| && gc.Ok() && gc.graph.nextValue >= old(gc.graph.nextValue)
      invariant Grown(old(gc.graph.node), gc.retained, gc.graph.node, gc.retained)
      invariant Filled(gc.graph.node, old(gc.grad), gc.grad) && forall i :: 0 <= i < k ==> ys[i] in gc.grad
      invariant OldWriters(old(gc.graph.producer), gc.graph.producer, old(gc.graph.nextValue))
    {
      if ys[k] !in gc.grad {
        ghost var before := gc.graph.node;
        var gy := gc.Op(Constant(Null), []);
        GrownTrans(old(gc.graph.node), gc.retained, before, gc.retained, gc.graph.node, gc.retained);
        GrownIsWithin(before, gc.retained, gc.graph.node, gc.retained);
        FilledMore(before, gc.graph.node, old(gc.grad), gc.grad, ys[k], gy);
        gc.grad := gc.grad[ys[k] := gy];
      }
      k := k + 1;
    }
  }

  /** What `v` receives of the gradients that the backward loop passes on to the first `k` states. */
  ghost function PassedTo(env: Env, inputs: seq<ValueId>, xs: seq<ValueId>, kept: Grads, gxs: seq<ValueId>, v: ValueId,
                          k: nat): real
    requires k <= |gxs| && k <= |xs| && 2 + k <= |inputs|
  {
    if k == 0 then 0.0
    else
      var g := if xs[k - 1] in kept && inputs[2 + k - 1] == v then RealOf(env(gxs[k - 1])) else 0.0;
      PassedTo(env, inputs, xs, kept, gxs, v, k - 1) + g
  }

  ghost predicate Passes(node: map<NodeId, Node>, before: Grads, after: Grads, inputs: seq<ValueId>, xs: seq<ValueId>,
                         kept: Grads, gxs: seq<ValueId>, k: nat)
    requires k <= |gxs| && k <= |xs| && 2 + k <= |inputs|
  {
    forall kernels: Kernels, env: Env, v: ValueId {:trigger PassedTo(env, inputs, xs, kept, gxs, v, k),
                                                   Solves(kernels, node, env)} ::
      Solves(kernels, node, env) ==>
        GradOf(env, after, v) == GradOf(env, before, v) + PassedTo(env, inputs, xs, kept, gxs, v, k)
  }

  lemma {:induction false} PassedToPrefix(env: Env, inputs: seq<ValueId>, xs: seq<ValueId>, kept: Grads,
                                          gxs: seq<ValueId>, g: ValueId, v: ValueId, k: nat)
    requires k <= |gxs| && k <= |xs| && 2 + k <= |inputs|
    ensures PassedTo(env, inputs, xs, kept, gxs + [g], v, k) == PassedTo(env, inputs, xs, kept, gxs, v, k)
  {
    if k > 0 { PassedToPrefix(env, inputs, xs, kept, gxs, g, v, k - 1); }
  }

  lemma PassesMore(node: map<NodeId, Node>, node': map<NodeId, Node>, before: Grads, between: Grads, after: Grads,
                   inputs: seq<ValueId>, xs: seq<ValueId>, kept: Grads, gxs: seq<ValueId>, g: ValueId)
    requires |gxs| < |xs| && 2 + |gxs| < |inputs| && Within(node, node')
    requires Passes(node, before, between, inputs, xs, kept, gxs, |gxs|)
    requires if xs[|gxs|] in kept then Added(node', between, after, inputs[2 + |gxs|], g) else after == between
    ensures Passes(node', before, after, inputs, xs, kept, gxs + [g], |gxs| + 1)
  {
    hide Added, GradOf, Solves, Within;
    var k := |gxs|;
    forall kernels: Kernels, env: Env, v: ValueId | Solves(kernels, node', env)
      ensures GradOf(env, after, v) == GradOf(env, before, v) + PassedTo(env, inputs, xs, kept, gxs + [g], v, k + 1)
    {
      SolvesWithin(kernels, node, node', env);
      assert GradOf(env, between, v) == GradOf(env, before, v) + PassedTo(env, inputs, xs, kept, gxs, v, k);
      PassedToPrefix(env, inputs, xs, kept, gxs, g, v, k);
      if xs[k] in kept { AddedMeans(kernels, node', env, between, after, inputs[2 + k], g); }
    }
  }

  lemma PassesNone(node: map<NodeId, Node>, before: Grads, inputs: seq<ValueId>, xs: seq<ValueId>, kept: Grads)
    requires 2 <= |inputs|
    ensures Passes(node, before, before, inputs, xs, kept, [], 0)
  {
  }

  /** The gradients of the loop's inputs: AddGradValue where the body has a gradient. */
  method PassGradients(gc: GradientContext, inputs: seq<ValueId>, xs: seq<ValueId>, kept: Grads, states: nat)
    returns (gxs: seq<ValueId>)
    requires gc.Ok() && states <= |xs| && 2 + states <= |inputs|
    modifies gc`grad, gc.graph
    ensures gc.Ok() && gc.graph.nextValue >= old(gc.graph.nextValue)
    ensures Grown(old(gc.graph.node), gc.retained, gc.graph.node, gc.retained)
    ensures |gxs| == states && AllIn(gxs, gc.graph.nextValue)
    ensures Passes(gc.graph.node, old(gc.grad), gc.grad, inputs, xs, kept, gxs, states)
    ensures OldWriters(old(gc.graph.producer), gc.graph.producer, old(gc.graph.nextValue))
    ensures Consecutive(gxs, gc.graph.producer) && forall v :: v in gxs ==> v >= old(gc.graph.nextValue)
  {
    hide DefUse, Written, Below, Has, Within, Grown, NodesBelow, Newer, AllSound, Placeholders, Passes, Added,
      AllWithin, gc.g.Ssa;
    gxs := [];
    PassesNone(gc.graph.node, gc.grad, inputs, xs, kept);
    GrownSelf(gc.graph.node, gc.retained);
    while |gxs| < states
      modifies gc`grad, gc.graph
      invariant |gxs| <= states && gc.Ok() && gc.graph.nextValue >= old(gc.graph.nextValue)
      invariant Grown(old(gc.graph.node), gc.retained, gc.graph.node, gc.retained)
      invariant AllIn(gxs, gc.graph.nextValue)
      invariant Passes(gc.graph.node, old(gc.grad), gc.grad, inputs, xs, kept, gxs, |gxs|)
      invariant OldWriters(old(gc.graph.producer), gc.graph.producer, old(gc.graph.nextValue))
      invariant Consecutive(gxs, gc.graph.producer) && forall v :: v in gxs ==> v >= old(gc.graph.nextValue)
    {
      ghost var before, between, producer, next := gc.graph.node, gc.grad, gc.graph.producer, gc.graph.nextValue;
      GrownSelf(before, gc.retained);
      var k := |gxs|;
      var gv := gc.NewValue();
      ConsecutiveMore(gxs, producer, gv, next);
      if xs[k] in kept { gc.SetGrad(inputs[2 + k], gv); }
      GrownTrans(old(gc.graph.node), gc.retained, before, gc.retained, gc.graph.node, gc.retained);
      GrownIsWithin(before, gc.retained, gc.graph.node, gc.retained);
      PassesMore(before, gc.graph.node, old(gc.grad), between, gc.grad, inputs, xs, kept, gxs, gv);
      WritersLater(gxs + [gv], producer, gc.graph.producer, gv + 1);
      gxs := gxs + [gv];
    }
  }

  lemma ConsecutiveMore(vs: seq<ValueId>, producer: map<ValueId, NodeId>, v: ValueId, bound: nat)
    requires Consecutive(vs, producer) && AllIn(vs, bound) && bound <= v && v !in producer
    ensures Consecutive(vs + [v], producer) && AllIn(vs + [v], v + 1)
  {
    assert forall i :: 0 <= i < |vs| ==> vs[i] in vs;
  }

  lemma WritersLater(vs: seq<ValueId>, producer: map<ValueId, NodeId>, producer': map<ValueId, NodeId>, bound: nat)
    requires Consecutive(vs, producer) && AllIn(vs, bound)
    requires OldWriters(producer, producer', bound) || producer' == producer
    ensures Consecutive(vs, producer')
  {
    if producer' != producer { ConsecutiveLater(vs, producer, producer', bound); }
  }

  // ---- the whole ----

  lemma UnwrittenYet(graph: Graph, retained: map<ValueId, ValueId>, border: nat)
    requires Placeholders(retained, graph.producer) && AllWithin(retained, border, graph.nextValue)
    ensures Unwritten(graph, retained, retained.Keys)
  {
  }

  lemma WiredUp(d: BodyGradient, body0: map<NodeId, Node>, body1: map<NodeId, Node>, body: map<NodeId, Node>, b: Pops,
                states: nat)
    requires ComesThrough(d.node, d.ys, b.gradIns, d.first, |d.ys|) && |d.ys| == states <= |d.xs|
    requires Within(d.node, body1) && Within(body1, body) && GoOut(body1, d.xs, d.grad, b.outs, states)
    ensures d.Wired(body, b, states)
  {
    hide Has, Within;
    WithinTrans(d.node, body1, body);
    ComesThroughWithin(d.node, body, d.ys, b.gradIns, d.first, |d.ys|);
    forall i | 0 <= i < states ensures d.GoesOut(body, b, i) {
      HasWithin(body1, body, OutNode(d.xs, d.grad, i, b.outs[i]));
    }
  }

  lemma PopsThemAll(body: map<NodeId, Node>, p: Pushes, b: Pops, retained: map<ValueId, ValueId>)
    requires PopsSome(body, p.values, b.popIns, b.popOuts, retained) && SetOf(p.values) == retained.Keys
    ensures PopsAll(body, p, b, retained)
  {
    hide Has;
    assert forall v :: v in retained ==> v in SetOf(p.values);
  }

  lemma ValuesBelow(d: BodyGradient, values: seq<ValueId>)
    requires d.TwoGraphs() && SetOf(values) == d.retained.Keys
    ensures AllIn(values, d.border)
  {
    forall i | 0 <= i < |values| ensures values[i] < d.border { assert values[i] in SetOf(values); }
  }

  /** The body of the backward loop. */
  method BackwardBody(body: Graph, bodyNulls: set<ValueId>, inputs: seq<ValueId>, ys: seq<ValueId>)
    returns (graph: Graph, b: Pops, values: seq<ValueId>, kept: Grads, ghost d: BodyGradient,
             ghost wired: map<NodeId, Node>)
    requires body.Valid({}) && Listed(body) && 2 + |ys| <= |inputs| && AllIn(inputs, body.nextValue)
    requires Complete(Snapshot(body.node, body.users, body.producer, bodyNulls), inputs)
    requires Fitting(Snapshot(body.node, body.users, body.producer, bodyNulls)) && Distinct(ys)
    requires AllIn(ys, body.nextValue)
    ensures fresh(graph) && graph.Valid({}) && d.TwoGraphs() && d.Adjoint()
    ensures d.Wired(graph.node, b, |ys|) && d.g == Snapshot(body.node, body.users, body.producer, bodyNulls)
    ensures d.grad == kept && d.xs == inputs[2..] && d.ys == ys
    ensures PopsSome(graph.node, values, b.popIns, b.popOuts, d.retained) && SetOf(values) == d.retained.Keys
    ensures Distinct(values) && AllIn(values, body.nextValue) && NoneConstant(d.g.node, SetOf(values))
    ensures AllIn(BackIns(b), graph.nextValue) && AllIn(BodyOuts(b), graph.nextValue)
    ensures BackMade(d, wired, graph.node, b, values, |ys|) && AllReach(d.g.node, d.grad, d.xs, d.ys)
  {
    hide DefUse, Written, Below, Has, Within, Complete, Fitting, Unwritten, PopsSome, GoOut, ComesThrough, AllFrom,
      Placeholders, NoneConstant;
    hide d.TwoGraphs, d.Adjoint, d.Wired, Distinct, AllWithin, GradientBodyRuns, OnlyGoOut, OnlyPops, BodyInsMade,
      NodesBelow, AllReach;
    var iter, cond, gradIns, retained;
    graph, iter, cond, gradIns, retained, kept, d := DifferentiateBody(body, bodyNulls, inputs, ys);
    UnwrittenYet(graph, retained, d.border);
    WithinZero(kept, d.border, graph.nextValue);
    var condOut, outs := WireOut(graph, retained, inputs[2..], kept, |ys|);
    wired := graph.node;
    var popIns, popOuts;
    ghost var bound := graph.nextValue;
    values, popIns, popOuts := PopRetained(graph, retained);
    b := Pops(0, [], [], [], iter, cond, condOut, gradIns, outs, popIns, popOuts);
    WiredUp(d, d.node, wired, graph.node, b, |ys|);
    ValuesBelow(d, values);
    MapBelow(kept, d.border, condOut);
    MapBelow(retained, d.border, condOut);
    GoOutSizes(wired, inputs[2..], kept, outs, |ys|);
  }

  lemma MapBelow(m: map<ValueId, ValueId>, border: nat, bound: nat)
    requires AllWithin(m, border, bound)
    ensures forall v :: v in m ==> m[v] < bound
  {
  }

  lemma GoOutSizes(body: map<NodeId, Node>, xs: seq<ValueId>, grad: Grads, outs: seq<ValueId>, k: nat)
    requires GoOut(body, xs, grad, outs, k)
    ensures |outs| == k <= |xs|
  {
  }

  function BodyOuts(b: Pops): seq<ValueId> {
    [b.condOut] + b.outs + b.popOuts
  }

  lemma WithinZero(grad: Grads, border: nat, bound: nat)
    requires AllWithin(grad, border, bound)
    ensures AllWithin(grad, 0, bound)
  {
  }

  /** A loop that LoopGradFn may be called with. */
  ghost predicate Callable(gc: GradientContext, loop: LoopNode, bodyNulls: set<ValueId>)
    reads gc`grad, gc`retained, gc.graph, loop, loop.body
  {
    && gc.Ok() && !gc.twoGraphs && gc.graph != loop.body && loop.Ok(gc.graph.nextValue) && loop.Value().Validates()
    && |loop.inputs| - 2 <= |loop.outputs|
    && Listed(loop.body)
    && Complete(Snapshot(loop.body.node, loop.body.users, loop.body.producer, bodyNulls), loop.bodyInputs)
    && Fitting(Snapshot(loop.body.node, loop.body.users, loop.body.producer, bodyNulls))
    && (forall v :: v in bodyNulls ==> v < loop.body.nextValue)
    && Distinct(loop.bodyOutputs[1..1 + (|loop.inputs| - 2)])
  }

  /** The counter is the last of the loop's inputs and outputs. */
  ghost predicate CountLinked(loop: Loop, counted: Loop, p: Pushes) {
    && counted.inputs == loop.inputs + [p.zero] && counted.outputs == loop.outputs + [p.count]
    && counted.bodyInputs == loop.bodyInputs + [p.countIn] && counted.bodyOutputs == loop.bodyOutputs + [p.countOut]
    && counted.nulls == loop.nulls
  }

  lemma CountedLists(loop: Loop, counted: Loop, p: Pushes)
    requires loop.Fits() && |loop.outputs| == loop.States() && CountLinked(loop, counted, p)
    ensures |counted.inputs| == |loop.inputs| + 1 && |counted.bodyInputs| == |loop.bodyInputs| + 1
    ensures |counted.bodyOutputs| == |loop.bodyOutputs| + 1 && counted.bodyInputs == loop.bodyInputs + [p.countIn]
    ensures counted.bodyOutputs[1..1 + loop.States()] == loop.bodyOutputs[1..1 + loop.States()]
  {
  }

  /** The counted loop, its body fit to be differentiated. */
  method CountIterations(gc: GradientContext, loop: LoopNode, bodyNulls: set<ValueId>) returns (p: Pushes)
    requires Callable(gc, loop, bodyNulls) && |loop.outputs| == |loop.inputs| - 2
    modifies gc.graph, loop.body, loop`inputs, loop`outputs, loop`bodyInputs, loop`bodyOutputs
    ensures gc.Ok() && loop.Ok(gc.graph.nextValue) && old(gc.graph.nextValue) <= gc.graph.nextValue
    ensures Grown(old(gc.graph.node), gc.retained, gc.graph.node, gc.retained)
    ensures Within(old(loop.body.node), loop.body.node)
    ensures Counts(gc.graph.node, loop.body.node, p) && p.count >= old(gc.graph.nextValue)
    ensures p.count < gc.graph.nextValue
    ensures CountLinked(old(loop.Value()), loop.Value(), p)
    ensures Listed(loop.body)
    ensures Complete(Snapshot(loop.body.node, loop.body.users, loop.body.producer, bodyNulls), loop.bodyInputs)
    ensures Fitting(Snapshot(loop.body.node, loop.body.users, loop.body.producer, bodyNulls))
    ensures p.count !in gc.graph.producer && loop.body.nextValue == p.one + 3
    ensures p.one == old(loop.body.nextValue) && p.countIn == p.one + 1 && p.countOut == p.one + 2
    ensures CountNodes(old(loop.body.node), loop.body.node, p.one, p.countIn, p.countOut)
  {
    hide DefUse, Written, Has, Within, Listed, Grown, NodesBelow, Newer, AllSound, Placeholders, AllWithin, CountNodes,
      Complete, Fitting;
    hide Distinct, gc.g.Ssa, Below, loop.Ok;
    ghost var g := Snapshot(loop.body.node, loop.body.users, loop.body.producer, bodyNulls);
    BodyBelow(loop, gc.graph.nextValue);
    p := OutputIterationCount(gc, loop);
    CountLists(old(loop.outputs), |old(loop.inputs)| - 2, p.count);
    BodyLinks(loop, gc.graph.nextValue, bodyNulls);
    LoopOutputsBelow(loop, gc.graph.nextValue, p.count);
    CountKeepsComplete(g, Snapshot(loop.body.node, loop.body.users, loop.body.producer, bodyNulls),
                       old(loop.bodyInputs), p.one, p.countIn, p.countOut);
  }

  lemma LoopOutputsBelow(loop: LoopNode, outside: nat, v: ValueId)
    requires loop.Ok(outside) && v in loop.outputs
    ensures v < outside
  {
  }

  lemma CountLists(outputs: seq<ValueId>, states: nat, count: ValueId)
    requires |outputs| == states
    ensures outputs[..states] + [count] + outputs[states..] == outputs + [count]
  {
  }

  lemma BodyBelow(loop: LoopNode, outside: nat)
    requires loop.Ok(outside)
    ensures AllIn(loop.bodyInputs, loop.body.nextValue) && NodesBelow(loop.body.node, loop.body.nextValue)
    ensures forall v :: v in loop.body.producer ==> v < loop.body.nextValue
  {
    hide DefUse, Written;
  }

  lemma BodyLinks(loop: LoopNode, outside: nat, bodyNulls: set<ValueId>)
    requires loop.Ok(outside)
    ensures Snapshot(loop.body.node, loop.body.users, loop.body.producer, bodyNulls).DefUse()
    ensures Written(loop.body.node, loop.body.producer, {})
  {
    hide Written, Below;
    SnapshotDefUse(loop.body.node, loop.body.users, loop.body.producer, bodyNulls);
  }

  lemma SnapshotDefUse(node: map<NodeId, Node>, users: map<ValueId, seq<NodeId>>, producer: map<ValueId, NodeId>,
                       nulls: set<ValueId>)
    requires DefUse(node, users)
    ensures Snapshot(node, users, producer, nulls).DefUse()
  {
    var g, h := Snapshot(node, users, map[], {}), Snapshot(node, users, producer, nulls);
    forall n: NodeId, v: ValueId ensures multiset(h.Users(v))[n] == h.Reads(n, v) {
      assert multiset(g.Users(v))[n] == g.Reads(n, v);
    }
  }

  /** Lists and nodes put together. */
  lemma InputsFirst(loop: Loop, counted: Loop, fwd: Loop, p0: Pushes, p: Pushes, values: seq<ValueId>)
    requires CountLinked(loop, counted, p0) && PushesLinked(counted, fwd, p0, p, values)
    ensures loop.inputs <= fwd.inputs
    ensures
      && p.values == values && p.one == p0.one && p.count == p0.count && p.countIn == p0.countIn
      && p.countOut == p0.countOut
  {
  }

  lemma AllTogether(outer0: map<NodeId, Node>, outer: map<NodeId, Node>, loop: Loop, counted: Loop, fwd: Loop,
                    p0: Pushes, p: Pushes, values: seq<ValueId>, b: Pops, bwd: Loop, d: BodyGradient)
    requires loop.Fits() && |loop.outputs| == loop.States()
    requires CountLinked(loop, counted, p0) && PushesLinked(counted, fwd, p0, p, values) && p0.count !in loop.nulls
    requires Within(loop.body, counted.body) && Within(counted.body, fwd.body) && Within(outer0, outer)
    requires Counts(outer0, fwd.body, p) && Stacks(outer0, fwd.body, p)
    requires d.g.node == counted.body && d.xs == counted.bodyInputs[2..]
    requires d.ys == loop.bodyOutputs[1..1 + loop.States()]
    requires d.TwoGraphs() && d.Adjoint() && d.Wired(bwd.body, b, loop.States())
    requires PopsSome(bwd.body, p.values, b.popIns, b.popOuts, d.retained) && SetOf(p.values) == d.retained.Keys
    requires BackwardLists(bwd, p, b, loop.States()) && DropsExactly(loop, d)
    ensures Differentiated(outer, loop, fwd, p, bwd, b, d)
  {
    hide DropsExactly, Has, Within, d.TwoGraphs, d.Adjoint, d.Wired, PopsSome, BackwardLists;
    WithinTrans(loop.body, counted.body, fwd.body);
    WithinItself(fwd.body);
    CountsMore(outer0, fwd.body, outer, fwd.body, p, p);
    forall r | 0 <= r < |p.values| ensures Has(outer, Node(SequenceConstruct, [], [p.stackIns[r]])) {
      HasWithin(outer0, outer, Node(SequenceConstruct, [], [p.stackIns[r]]));
    }
    PopsThemAll(bwd.body, p, b, d.retained);
  }

  /** What LoopGradFn does to the gradients outside. */
  ghost predicate Propagates(outer: map<NodeId, Node>, before: Grads, after: Grads, loop: Loop, b: Pops,
                             d: BodyGradient)
    requires loop.Fits() && loop.States() <= |b.gys| && loop.States() <= |b.gxs| && loop.States() <= |d.xs|
    requires loop.States() <= |loop.outputs|
  {
    forall kernels: Kernels, env: Env :: Solves(kernels, outer, env) ==>
      && (forall i :: 0 <= i < loop.States() ==> RealOf(env(b.gys[i])) == GradOf(env, before, loop.outputs[i]))
      && (forall v: ValueId ::
            GradOf(env, after, v) == GradOf(env, before, v) +
              PassedTo(env, loop.inputs, d.xs, d.grad, b.gxs, v, loop.States()))
  }

  lemma PropagatesIn(outer: map<NodeId, Node>, before: Grads, filled: Grads, after: Grads, loop: Loop,
                     fwdInputs: seq<ValueId>, b: Pops, d: BodyGradient)
    requires loop.Fits() && loop.States() == |b.gys| == |b.gxs| && loop.States() <= |d.xs|
    requires loop.States() <= |loop.outputs|
    requires loop.inputs <= fwdInputs
    requires Filled(outer, before, filled)
    requires forall i :: 0 <= i < loop.States() ==> loop.outputs[i] in filled && b.gys[i] == filled[loop.outputs[i]]
    requires Passes(outer, filled, after, fwdInputs, d.xs, d.grad, b.gxs, loop.States())
    ensures Propagates(outer, before, after, loop, b, d)
  {
    hide Filled, Solves;
    forall kernels: Kernels, env: Env | Solves(kernels, outer, env)
      ensures forall i :: 0 <= i < loop.States() ==> RealOf(env(b.gys[i])) == GradOf(env, before, loop.outputs[i])
      ensures forall v: ValueId ::
        GradOf(env, after, v) == GradOf(env, before, v) +
          PassedTo(env, loop.inputs, d.xs, d.grad, b.gxs, v, loop.States())
    {
      forall v: ValueId ensures GradOf(env, filled, v) == GradOf(env, before, v) {
        FilledMeans(kernels, outer, env, before, filled, v);
      }
      forall v: ValueId ensures PassedTo(env, loop.inputs, d.xs, d.grad, b.gxs, v, loop.States())
        == PassedTo(env, fwdInputs, d.xs, d.grad, b.gxs, v, loop.States())
      {
        SameInputs(env, loop.inputs, fwdInputs, d.xs, d.grad, b.gxs, v, loop.States());
      }
    }
  }

  lemma {:induction false} SameInputs(env: Env, inputs: seq<ValueId>, more: seq<ValueId>, xs: seq<ValueId>, kept: Grads,
                                      gxs: seq<ValueId>, v: ValueId, k: nat)
    requires inputs <= more && k <= |gxs| && k <= |xs| && 2 + k <= |inputs|
    ensures PassedTo(env, inputs, xs, kept, gxs, v, k) == PassedTo(env, more, xs, kept, gxs, v, k)
  {
    if k > 0 { SameInputs(env, inputs, more, xs, kept, gxs, v, k - 1); }
  }

  ghost predicate HasGradient(grad: Grads, ys: seq<ValueId>) {
    exists i :: 0 <= i < |ys| && ys[i] in grad
  }

  method AnyGradient(grad: Grads, ys: seq<ValueId>) returns (found: bool)
    ensures found <==> HasGradient(grad, ys)
  {
    var i := 0;
    while i < |ys|
      invariant 0 <= i <= |ys| && forall k :: 0 <= k < i ==> ys[k] !in grad
    {
      if ys[i] in grad { return true; }
      i := i + 1;
    }
    return false;
  }

  /** The backward loop with all its lists. */
  method MakeBackwardLoop(gc: GradientContext, graph: Graph, p: Pushes, b0: Pops, gys: seq<ValueId>, gxs: seq<ValueId>)
    returns (bwd: LoopNode, b: Pops)
    requires gc.Ok() && graph != gc.graph
    requires p.count < gc.graph.nextValue && AllIn(gxs, gc.graph.nextValue)
    requires |gys| == |gxs| == |b0.gradIns| == |b0.outs|
    requires |b0.popIns| == |b0.popOuts| == |p.stackOuts| == |p.values|
    modifies gc.graph`nextValue
    ensures gc.graph.nextValue >= old(gc.graph.nextValue)
    ensures gc.Ok() && fresh(bwd) && bwd.body == graph
    ensures b == b0.(nothing := b.nothing, gys := gys, gxs := gxs, ends := b.ends)
    ensures BackwardLists(bwd.Value(), p, b, |gys|) && forall v :: v in b.ends ==> v in bwd.nulls
  {
    hide DefUse, Written, Below, NodesBelow, Newer, AllSound, Placeholders, AllWithin, gc.g.Ssa;
    var nothing := gc.NewValue();
    var ends := NewValues(gc, |p.values|);
    b := b0.(nothing := nothing, gys := gys, gxs := gxs, ends := ends);
    bwd := new LoopNode(graph, [p.count, nothing] + gys + p.stackOuts, gxs + ends,
                        [b.iter, b.cond] + b.gradIns + b.popIns,
                        [b.condOut] + b.outs + b.popOuts, {nothing} + SetOf(ends));
  }

  lemma OkLater(loop: LoopNode, outside: nat, outside': nat)
    requires loop.Ok(outside) && outside <= outside'
    ensures loop.Ok(outside')
  {
  }

  lemma BodyStatesBelow(loop: LoopNode, outside: nat, k: nat)
    requires loop.Ok(outside) && 1 + k <= |loop.bodyOutputs|
    ensures AllIn(loop.bodyOutputs[1..1 + k], loop.body.nextValue)
  {
    var states := loop.bodyOutputs[1..1 + k];
    assert forall i :: 0 <= i < k ==> states[i] in loop.bodyOutputs;
  }

  lemma NullsAreOld(loop: LoopNode, outside: nat)
    requires loop.Ok(outside)
    ensures forall v: ValueId :: v in loop.nulls ==> v < outside
  {
  }

  function GradsOf(grad: Grads, ys: seq<ValueId>): (gys: seq<ValueId>)
    requires forall y :: y in ys ==> y in grad
    ensures |gys| == |ys| && forall i :: 0 <= i < |ys| ==> gys[i] == grad[ys[i]]
  {
    seq(|ys|, i requires 0 <= i < |ys| => (assert ys[i] in ys; grad[ys[i]]))
  }

  /** The pushes of `p` are the loop's new inputs and outputs. */
  ghost predicate PushesLinked(loop0: Loop, loop: Loop, p0: Pushes, p: Pushes, values: seq<ValueId>) {
    && p == p0.(values := values, pushIns := p.pushIns, pushOuts := p.pushOuts, stackIns := p.stackIns,
                stackOuts := p.stackOuts)
    && loop.inputs == loop0.inputs + p.stackIns && loop.outputs == loop0.outputs + p.stackOuts
    && loop.bodyInputs == loop0.bodyInputs + p.pushIns && loop.bodyOutputs == loop0.bodyOutputs + p.pushOuts
    && loop.nulls == loop0.nulls && forall v :: v in p.stackOuts ==> v !in loop.nulls
  }

  /** The part of LoopGradFn after the backward body is made. */
  method LinkLoops(gc: GradientContext, loop: LoopNode, p0: Pushes, graph: Graph, b0: Pops, values: seq<ValueId>,
                   kept: Grads, ys: seq<ValueId>)
    returns (bwd: LoopNode, ghost p: Pushes, ghost b: Pops, ghost node: map<NodeId, Node>, ghost m: nat)
    requires gc.Ok() && !gc.twoGraphs && loop.Ok(gc.graph.nextValue) && gc.graph != loop.body && graph != gc.graph
    requires graph != loop.body
    requires AllIn(values, loop.body.nextValue) && Counts(gc.graph.node, loop.body.node, p0)
    requires p0.count < gc.graph.nextValue
    requires |b0.gradIns| == |b0.outs| == |ys| && |b0.popIns| == |b0.popOuts| == |values|
    requires 2 + |ys| <= |loop.inputs| && 2 + |ys| <= |loop.bodyInputs| && forall y :: y in ys ==> y in gc.grad
    modifies gc`grad, gc.graph, loop.body, loop`inputs, loop`outputs, loop`bodyInputs, loop`bodyOutputs
    ensures gc.Ok() && Grown(old(gc.graph.node), gc.retained, gc.graph.node, gc.retained)
    ensures Counts(node, loop.body.node, p) && Stacks(node, loop.body.node, p)
    ensures Within(old(loop.body.node), loop.body.node) && Within(node, gc.graph.node)
    ensures PushesLinked(old(loop.Value()), loop.Value(), p0, p, values)
    ensures b == b0.(nothing := b.nothing, gys := GradsOf(old(gc.grad), ys), gxs := b.gxs, ends := b.ends)
    ensures |b.gxs| == |ys|
    ensures fresh(bwd) && bwd.body == graph && BackwardLists(bwd.Value(), p, b, |ys|)
    ensures Passes(gc.graph.node, old(gc.grad), gc.grad, loop.inputs, old(loop.bodyInputs)[2..], kept, b.gxs, |ys|)
    ensures OnlyInserts(old(loop.body.node), loop.body.node, values, p.pushIns, p.pushOuts, old(loop.body.nextValue))
    ensures forall v :: v in b.ends ==> v in bwd.nulls
    ensures Ordered(gc.graph.producer, p, b, old(gc.graph.nextValue), m, gc.graph.nextValue)
    ensures OldWriters(old(gc.graph.producer), gc.graph.producer, old(gc.graph.nextValue))
  {
    hide DefUse, Written, Below, NodesBelow, Newer, AllSound, Placeholders, AllWithin, gc.g.Ssa, Counts, Stacks, Grown,
      Within, Passes, AllIn;
    hide loop.Ok, BackwardLists, OnlyInserts, Consecutive, OldWriters, Ordered;
    NullsAreOld(loop, gc.graph.nextValue);
    var xs := loop.bodyInputs[2..];
    var p1 := PushRetained(gc, loop, p0, values);
    node, m := gc.graph.node, gc.graph.nextValue;
    ghost var producer := gc.graph.producer;
    var gys := GradsOf(gc.grad, ys);
    GradsBelowNow(gc, ys);
    var gxs := PassGradients(gc, loop.inputs, xs, kept, |ys|);
    GrownIsWithin(node, gc.retained, gc.graph.node, gc.retained);
    GrownTrans(old(gc.graph.node), gc.retained, node, gc.retained, gc.graph.node, gc.retained);
    StacksSizes(node, loop.body.node, p1);
    var b1;
    bwd, b1 := MakeBackwardLoop(gc, graph, p1, b0, gys, gxs);
    p, b := p1, b1;
    OldWritersTrans(old(gc.graph.producer), producer, gc.graph.producer, old(gc.graph.nextValue), m);
    StacksStay(p.stackOuts, producer, gc.graph.producer, m);
    OrderedNow(gc.graph.producer, p, b, old(gc.graph.nextValue), m, gc.graph.nextValue);
  }

  lemma OrderedNow(producer: map<ValueId, NodeId>, p: Pushes, b: Pops, low: nat, m: nat, high: nat)
    requires low <= m <= high && Consecutive(p.stackOuts, producer) && Consecutive(b.gxs, producer) && AllIn(b.gys, m)
    requires (forall v :: v in p.stackOuts ==> low <= v < m) && forall v :: v in b.gxs ==> m <= v
    ensures Ordered(producer, p, b, low, m, high)
  {
  }

  lemma StacksStay(vs: seq<ValueId>, producer: map<ValueId, NodeId>, producer': map<ValueId, NodeId>, m: nat)
    requires Consecutive(vs, producer) && (forall v :: v in vs ==> v < m) && OldWriters(producer, producer', m)
    ensures Consecutive(vs, producer')
  {
    assert forall i :: 0 <= i < |vs| ==> vs[i] in vs;
    ConsecutiveLater(vs, producer, producer', m);
  }

  lemma GradsBelowNow(gc: GradientContext, ys: seq<ValueId>)
    requires gc.Ok() && forall y :: y in ys ==> y in gc.grad
    ensures AllIn(GradsOf(gc.grad, ys), gc.graph.nextValue)
  {
    hide DefUse, Written, Below, NodesBelow, Newer, AllSound;
    var gys := GradsOf(gc.grad, ys);
    forall v | v in gys ensures v < gc.graph.nextValue {
      var i :| 0 <= i < |gys| && gys[i] == v;
      assert ys[i] in ys;
    }
  }

  /** Stacks come out, gradients come in, gradients go out: in this order, and unwritten but for the second. */
  ghost predicate Ordered(producer: map<ValueId, NodeId>, p: Pushes, b: Pops, low: nat, m: nat, high: nat) {
    && low <= m <= high && Consecutive(p.stackOuts, producer) && Consecutive(b.gxs, producer)
    && (forall v :: v in p.stackOuts ==> low <= v < m) && AllIn(b.gys, m) && (forall v :: v in b.gxs ==> m <= v)
  }

  lemma StacksSizes(outer: map<NodeId, Node>, body: map<NodeId, Node>, p: Pushes)
    requires Stacks(outer, body, p)
    ensures |p.stackOuts| == |p.values| == |p.pushIns|
  {
  }

  /** The loop is one of the forward graph, which is what was in the graph at first. */
  ghost predicate Belongs(gc: GradientContext, loop: LoopNode)
    reads gc.graph, loop, loop.body`node
  {
    ForwardLoop(gc.g, gc.first, gc.base, gc.graph.node, loop.Value())
  }

  ghost predicate ForwardLoop(g: Snapshot, first: map<NodeId, Node>, base: nat, node: map<NodeId, Node>, loop: Loop) {
    && Within(first, node) && NodesBelow(g.node, base) && NodesBelow(first, base)
    && AllIn(loop.inputs, base) && AllIn(loop.outputs, base)
  }

  /** Every run of the forward graph with the loop as it was becomes a joint run of the two loops and
      the graph around them, with all old values as they were. */
  ghost predicate LoopsRunOn(forward: map<NodeId, Node>, first: map<NodeId, Node>, outer: map<NodeId, Node>, loop: Loop,
                             fwd: Loop, bwd: Loop, base: nat, inside: nat) {
    forall kernels: Kernels, env: Env, envs: seq<Env> ::
      Solves(kernels, forward, env) && Solves(kernels, first, env) && loop.Run(kernels, env, envs) ==>
        JointlyContinues(kernels, outer, fwd, bwd, env, envs, base, inside)
  }

  lemma CountUnwritten(p: Pushes, producer0: map<ValueId, NodeId>, producer1: map<ValueId, NodeId>,
                       producer: map<ValueId, NodeId>, outside0: nat, outside1: nat)
    requires p.count !in producer0 && p.count < outside0 <= outside1
    requires OldWriters(producer0, producer1, outside0) && OldWriters(producer1, producer, outside1)
    ensures p.count !in producer
  {
  }

  lemma BelongsStill(g: Snapshot, first: map<NodeId, Node>, base: nat, node0: map<NodeId, Node>,
                     node: map<NodeId, Node>, retained: map<ValueId, ValueId>, loop: Loop)
    requires ForwardLoop(g, first, base, node0, loop) && Grown(node0, retained, node, retained)
    ensures ForwardLoop(g, first, base, node, loop)
  {
    hide NodesBelow;
    GrownIsWithin(node0, retained, node, retained);
    WithinTrans(first, node0, node);
  }

  lemma BodyIsMade(body0: map<NodeId, Node>, counted: map<NodeId, Node>, body: map<NodeId, Node>, p: Pushes,
                   inside: nat)
    requires NodesBelow(body0, inside) && Within(body0, counted) && Within(counted, body)
    requires p.one == inside && p.countIn == inside + 1 && p.countOut == inside + 2
    requires CountNodes(body0, counted, p.one, p.countIn, p.countOut) && AllIn(p.values, inside + 3)
    requires OnlyInserts(counted, body, p.values, p.pushIns, p.pushOuts, inside + 3) && |p.pushIns| == |p.values|
    ensures BodyMade(body0, counted, body, p, inside)
  {
  }

  lemma EndsDistinct(p: Pushes, b: Pops, producer: map<ValueId, NodeId>, low: nat, m: nat, high: nat, base: nat)
    requires Ordered(producer, p, b, low, m, high) && base <= p.count < low && p.count !in producer
    ensures Distinct(Ends(p)) && Distinct(b.gxs)
    ensures forall v :: v in Ends(p) ==> base <= v < m && v !in producer
    ensures forall v :: v in b.gxs ==> m <= v && v !in producer
  {
    assert forall i :: 0 <= i < |p.stackOuts| ==> p.stackOuts[i] in p.stackOuts;
  }

  lemma AroundNow(gc: GradientContext, loop: Loop, p: Pushes, b: Pops, low: nat, m: nat)
    requires gc.Ok() && !gc.twoGraphs && ForwardLoop(gc.g, gc.first, gc.base, gc.graph.node, loop)
    requires Ordered(gc.graph.producer, p, b, low, m, gc.graph.nextValue) && gc.base <= p.count < low
    requires p.count !in gc.graph.producer
    ensures Around(gc.g, gc.first, gc.graph.node, gc.graph.producer, gc.base, gc.graph.nextValue, p, b, m)
  {
    hide DefUse, Newer, AllSound, Within, Consecutive, Ends, Distinct, NodesBelow;
    GraphIsBelow(gc);
    NewerAnyway(gc.first, gc.graph.node, gc.base, gc.border);
    EndsDistinct(p, b, gc.graph.producer, low, m, gc.graph.nextValue, gc.base);
  }

  /** From what was made of the two bodies and around them to runs. */
  lemma LoopsRunNow(gc: GradientContext, loop: Loop, fwd: Loop, p: Pushes, bwd: Loop, b: Pops, b0: Pops,
                    d: BodyGradient, wired: map<NodeId, Node>, counted: map<NodeId, Node>, inside: nat, m: nat,
                    low: nat)
    requires gc.Ok() && !gc.twoGraphs && ForwardLoop(gc.g, gc.first, gc.base, gc.graph.node, loop)
    requires Differentiated(gc.graph.node, loop, fwd, p, bwd, b, d) && BodyMade(loop.body, counted, fwd.body, p, inside)
    requires AllIn(loop.bodyInputs, inside) && AllIn(loop.bodyOutputs, inside)
    requires loop.Fits() && BackMade(d, wired, bwd.body, b0, p.values, loop.States())
    requires b == b0.(nothing := b.nothing, gys := b.gys, gxs := b.gxs, ends := b.ends)
    requires forall v :: v in b.ends ==> v in bwd.nulls
    requires Ordered(gc.graph.producer, p, b, low, m, gc.graph.nextValue) && gc.base <= p.count < low
    requires p.count !in gc.graph.producer
    ensures LoopsRunOn(gc.g.node, gc.first, gc.graph.node, loop, fwd, bwd, gc.base, inside)
  {
    hide gc.Ok, Differentiated, BodyMade, BackMade, Ordered, Around, loop.Run, Solves, LoopsRun;
    AroundNow(gc, loop, p, b, low, m);
    BodyMadeRuns(loop.body, counted, fwd.body, p, inside);
    BackMadeRuns(d, wired, bwd.body, p, b0, loop.States());
    LoopsAre(gc.graph.node, loop, fwd, p, bwd, b, b0, d, inside);
    forall kernels: Kernels, env: Env, envs: seq<Env> |
      Solves(kernels, gc.g.node, env) && Solves(kernels, gc.first, env) && loop.Run(kernels, env, envs)
      ensures JointlyContinues(kernels, gc.graph.node, fwd, bwd, env, envs, gc.base, inside)
    {
      JointRunMade(kernels, gc.g, gc.first, gc.graph.node, gc.graph.producer, gc.base, gc.graph.nextValue, loop, fwd, p,
                   bwd, b, d, inside, m, env, envs);
    }
  }


  lemma LoopsRunStill(gc: GradientContext, node0: map<NodeId, Node>, loop: Loop, fwd: Loop, p: Pushes, bwd: Loop,
                      b: Pops, b0: Pops, d: BodyGradient, wired: map<NodeId, Node>, counted: map<NodeId, Node>,
                      inside: nat, m: nat, low: nat)
    requires gc.Ok() && !gc.twoGraphs && ForwardLoop(gc.g, gc.first, gc.base, node0, loop)
    requires Grown(node0, gc.retained, gc.graph.node, gc.retained)
    requires NodesBelow(loop.body, inside) && Within(loop.body, counted) && Within(counted, fwd.body)
    requires p.one == inside && p.countIn == inside + 1 && p.countOut == inside + 2
    requires CountNodes(loop.body, counted, p.one, p.countIn, p.countOut) && AllIn(p.values, inside + 3)
    requires OnlyInserts(counted, fwd.body, p.values, p.pushIns, p.pushOuts, inside + 3) && |p.pushIns| == |p.values|
    requires Differentiated(gc.graph.node, loop, fwd, p, bwd, b, d)
    requires AllIn(loop.bodyInputs, inside) && AllIn(loop.bodyOutputs, inside)
    requires loop.Fits() && BackMade(d, wired, bwd.body, b0, p.values, loop.States())
    requires b == b0.(nothing := b.nothing, gys := b.gys, gxs := b.gxs, ends := b.ends)
    requires forall v :: v in b.ends ==> v in bwd.nulls
    requires Ordered(gc.graph.producer, p, b, low, m, gc.graph.nextValue) && gc.base <= p.count < low
    requires p.count !in gc.graph.producer
    ensures LoopsRunOn(gc.g.node, gc.first, gc.graph.node, loop, fwd, bwd, gc.base, inside)
  {
    hide *;
    BodyIsMade(loop.body, counted, fwd.body, p, inside);
    BelongsStill(gc.g, gc.first, gc.base, node0, gc.graph.node, gc.retained, loop);
    LoopsRunNow(gc, loop, fwd, p, bwd, b, b0, d, wired, counted, inside, m, low);
  }
  lemma LoopsAre(outer: map<NodeId, Node>, loop: Loop, fwd: Loop, p: Pushes, bwd: Loop, b: Pops, b0: Pops,
                 d: BodyGradient, inside: nat)
    requires Differentiated(outer, loop, fwd, p, bwd, b, d) && ForwardBodyRuns(loop.body, fwd.body, p, inside)
    requires Distinct(CountIns(p))
    requires AllIn(loop.bodyInputs, inside) && AllIn(loop.bodyOutputs, inside)
    requires BackwardBodyRuns(bwd.body, d, p, b0) && Distinct(BackIns(b0)) && forall v :: v in b.ends ==> v in bwd.nulls
    requires b == b0.(nothing := b.nothing, gys := b.gys, gxs := b.gxs, ends := b.ends)
    ensures LoopsRun(outer, loop, fwd, p, bwd, b, d, inside)
  {
    hide Forward, ForwardBodyRuns, PopsAll, BackwardLists, Solves, d.TwoGraphs, d.Wired, d.Adjoint, Within;
    assert BackIns(b) == BackIns(b0);
    forall kernels: Kernels, fenv: Env, start: Env | Solves(kernels, d.g.node, fenv) && Poppable(p, b, fenv, start)
      ensures BackwardBodyContinues(kernels, bwd.body, b, start)
    {
      assert Poppable(p, b0, fenv, start);
      assert BackwardBodyContinues(kernels, bwd.body, b0, start);
    }
  }

  /** LoopGradFn.  Loops with scan outputs, and loops whose outputs have no gradient, are left alone. */
  method LoopGradFn(gc: GradientContext, loop: LoopNode, bodyNulls: set<ValueId>)
    returns (bwd: LoopNode?, ghost p: Pushes, ghost b: Pops, ghost d: BodyGradient)
    requires Callable(gc, loop, bodyNulls)
    modifies gc`grad, gc.graph, loop.body, loop`inputs, loop`outputs, loop`bodyInputs, loop`bodyOutputs
    ensures bwd != null <==>
      |old(loop.outputs)| == |old(loop.inputs)| - 2 && HasGradient(old(gc.grad), old(loop.outputs))
    ensures bwd == null ==> unchanged(gc) && unchanged(gc.graph) && unchanged(loop) && unchanged(loop.body)
    ensures bwd != null ==> gc.Ok() && Grown(old(gc.graph.node), gc.retained, gc.graph.node, gc.retained)
    ensures bwd != null ==> Differentiated(gc.graph.node, old(loop.Value()), loop.Value(), p, bwd.Value(), b, d)
    // No constant of the body is pushed on a stack.
    ensures bwd != null ==> NoneConstant(d.g.node, SetOf(p.values))
    ensures bwd != null ==> Propagates(gc.graph.node, old(gc.grad), gc.grad, old(loop.Value()), b, d)
    // Both loops can be run, one as often as the other, whatever gradients come in.
    ensures bwd != null && old(Belongs(gc, loop)) ==>
      LoopsRunOn(gc.g.node, gc.first, gc.graph.node, old(loop.Value()), loop.Value(), bwd.Value(), gc.base,
                 old(loop.body.nextValue))
  {
    hide *;
    p, b := Pushes(0, 0, 0, 0, 0, [], [], [], [], []), Pops(0, [], [], [], 0, 0, 0, [], [], [], []);
    d := BodyGradient(gc.g, map[], 0, map[], map[], map[], [], []);
    MayCall(gc, loop, bodyNulls);
    BelongsIs(gc, loop);
    var states := |loop.inputs| - 2;
    if |loop.outputs| != states { return null, p, b, d; }
    var any := AnyGradient(gc.grad, loop.outputs);
    if !any { return null, p, b, d; }
    ghost var loop0, outside := loop.Value(), gc.graph.nextValue;
    ValueIs(loop);
    StatesAre(loop0);
    var ys, bodyYs := loop.outputs, loop.bodyOutputs[1..1 + states];
    BodyStatesBelow(loop, outside, states);
    NullsAreOld(loop, outside);
    BodyBelow(loop, outside);
    ListsBelow(loop, outside);
    ghost var bodyBound := loop.body.nextValue;
    var p0 := CountIterations(gc, loop, bodyNulls);
    ghost var counted, node0, outside0, producer0 := loop.Value(), gc.graph.node, gc.graph.nextValue, gc.graph.producer;
    ValueIs(loop);
    CountedLists(loop0, counted, p0);
    BodyStatesBelow(loop, outside0, states);
    BodyInputsBelow(loop, outside0);
    FillGradients(gc, ys);
    ghost var filled, node1, outside1, producer1 := gc.grad, gc.graph.node, gc.graph.nextValue, gc.graph.producer;
    OkLater(loop, outside0, gc.graph.nextValue);
    GrownIsWithin(node0, gc.retained, node1, gc.retained);
    CountsOutside(node0, node1, loop.body.node, p0);
    var graph, b0, values, kept;
    ghost var wired;
    graph, b0, values, kept, d, wired := BackwardBody(loop.body, bodyNulls, loop.bodyInputs, bodyYs);
    WiredSizes(d, graph.node, b0, states, values);
    assert AllIn(values, bodyBound + 3);
    ghost var node2, m;
    bwd, p, b, node2, m := LinkLoops(gc, loop, p0, graph, b0, values, kept, ys);
    ValueIs(loop);
    ValueIs(bwd);
    InputsFirst(loop0, counted, loop.Value(), p0, p, values);
    GrownTrans(node0, gc.retained, node1, gc.retained, gc.graph.node, gc.retained);
    GrownTrans(old(gc.graph.node), gc.retained, node0, gc.retained, gc.graph.node, gc.retained);
    WiredAlike(d, graph.node, b0, b, states);
    DropsNow(loop0, counted.body, counted.bodyInputs, d, p0.one, p0.countIn, p0.countOut);
    AllTogether(node2, gc.graph.node, loop0, counted, loop.Value(), p0, p, values, b, bwd.Value(), d);
    GrownIsWithin(node1, gc.retained, gc.graph.node, gc.retained);
    FilledWithin(node1, gc.graph.node, old(gc.grad), filled);
    assert forall i :: 0 <= i < |ys| ==> ys[i] in ys;
    PropagatesIn(gc.graph.node, old(gc.grad), filled, gc.grad, loop0, loop.inputs, b, d);
    if old(Belongs(gc, loop)) {
      StacksSizes(node2, loop.body.node, p);
      CountUnwritten(p, producer0, producer1, gc.graph.producer, outside0, outside1);
      LoopsRunStill(gc, old(gc.graph.node), loop0, loop.Value(), p, bwd.Value(), b, b0, d, wired, counted.body,
                    bodyBound, m, outside1);
    }
  }

  lemma MayCall(gc: GradientContext, loop: LoopNode, bodyNulls: set<ValueId>)
    requires Callable(gc, loop, bodyNulls)
    ensures gc.Ok() && !gc.twoGraphs && gc.graph != loop.body && loop.Ok(gc.graph.nextValue)
    ensures gc.base <= gc.graph.nextValue
    ensures loop.Value().Fits() && 2 <= |loop.inputs| == |loop.bodyInputs| && |loop.bodyOutputs| == |loop.outputs| + 1
    ensures |loop.inputs| - 2 <= |loop.outputs| && Distinct(loop.bodyOutputs[1..1 + (|loop.inputs| - 2)])
  {
    hide gc.Ok, loop.Ok, Listed, Complete, Fitting, Distinct;
    BaseIsOld(gc);
  }

  lemma BelongsIs(gc: GradientContext, loop: LoopNode)
    ensures Belongs(gc, loop) <==> ForwardLoop(gc.g, gc.first, gc.base, gc.graph.node, loop.Value())
  {
  }

  lemma BaseIsOld(gc: GradientContext)
    requires gc.Ok()
    ensures gc.base <= gc.graph.nextValue
  {
  }

  lemma StatesAre(loop: Loop)
    requires loop.Fits()
    ensures loop.States() == |loop.inputs| - 2
  {
  }

  lemma DropsNow(loop: Loop, counted: map<NodeId, Node>, inputs: seq<ValueId>, d: BodyGradient, one: ValueId,
                 countIn: ValueId, countOut: ValueId)
    requires loop.Fits() && inputs == loop.bodyInputs + [countIn] && d.xs == inputs[2..]
    requires d.ys == loop.bodyOutputs[1..1 + loop.States()] && AllReach(d.g.node, d.grad, d.xs, d.ys)
    requires d.g.node == counted
    requires CountNodes(loop.body, counted, one, countIn, countOut) && Within(loop.body, counted)
    requires NodesBelow(loop.body, one)
    requires AllIn(loop.bodyInputs, one) && AllIn(d.ys, one) && countIn == one + 1
    ensures DropsExactly(loop, d)
  {
    hide AllReach, Influences, CountNodes, NodesBelow, Within;
    forall i | 0 <= i < loop.States() ensures d.xs[i] in d.grad <==> Matters(loop, i) {
      ReachesAt(d, i);
      assert loop.bodyInputs[2 + i] in loop.bodyInputs;
      CountLeadsNowhere(loop.body, counted, one, countIn, countOut, d.xs[i], d.ys);
    }
  }

  lemma ReachesAt(d: BodyGradient, i: nat)
    requires AllReach(d.g.node, d.grad, d.xs, d.ys) && i < |d.xs|
    ensures d.xs[i] in d.grad <==> Influences(d.g.node, d.xs[i], d.ys)
  {
    hide Influences;
    assert d.xs[i] in d.xs;
  }

  lemma CountLeadsNowhere(body: map<NodeId, Node>, counted: map<NodeId, Node>, one: ValueId, countIn: ValueId,
                          countOut: ValueId, x: ValueId, ys: seq<ValueId>)
    requires CountNodes(body, counted, one, countIn, countOut) && Within(body, counted) && NodesBelow(body, one)
    requires x < one && AllIn(ys, one) && countIn == one + 1
    ensures Influences(counted, x, ys) <==> Influences(body, x, ys)
  {
    hide Leads, CountNodes, Within, NodesBelow;
    if Influences(counted, x, ys) {
      var path :| Leads(counted, path, x, ys);
      PathAvoidsCount(body, counted, one, countIn, countOut, path, x, ys);
    }
    if Influences(body, x, ys) {
      var path :| Leads(body, path, x, ys);
      PathAvoidsCount(body, counted, one, countIn, countOut, path, x, ys);
    }
  }

  lemma {:induction false} PathAvoidsCount(body: map<NodeId, Node>, counted: map<NodeId, Node>, one: ValueId,
                                           countIn: ValueId, countOut: ValueId, path: seq<NodeId>, x: ValueId,
                                           ys: seq<ValueId>)
    requires CountNodes(body, counted, one, countIn, countOut) && Within(body, counted) && NodesBelow(body, one)
    requires x < one && countIn == one + 1
    ensures Leads(counted, path, x, ys) <==> Leads(body, path, x, ys)
    decreases |path|
  {
    if path != [] && path[0] in counted && x in counted[path[0]].inputs {
      ReaderIsOld(body, counted, one, countIn, countOut, path[0], x);
      var n := path[0];
      if counted[n].outputs != [] {
        PathAvoidsCount(body, counted, one, countIn, countOut, path[1..], counted[n].outputs[0], ys);
      }
    }
  }

  lemma ReaderIsOld(body: map<NodeId, Node>, counted: map<NodeId, Node>, one: ValueId, countIn: ValueId,
                    countOut: ValueId, n: NodeId, x: ValueId)
    requires CountNodes(body, counted, one, countIn, countOut) && Within(body, counted) && NodesBelow(body, one)
    requires x < one && countIn == one + 1 && n in counted && x in counted[n].inputs
    ensures n in body && body[n] == counted[n] && (counted[n].outputs != [] ==> counted[n].outputs[0] < one)
  {
    if n in body {
      assert BelowNode(body[n], one);
      assert body[n].outputs != [] ==> body[n].outputs[0] in body[n].outputs;
    }
  }

  lemma ListsBelow(loop: LoopNode, outside: nat)
    requires loop.Ok(outside)
    ensures AllIn(loop.bodyInputs, loop.body.nextValue) && AllIn(loop.bodyOutputs, loop.body.nextValue)
  {
  }

  lemma BodyInputsBelow(loop: LoopNode, outside: nat)
    requires loop.Ok(outside)
    ensures AllIn(loop.bodyInputs, loop.body.nextValue) && loop.body.Valid({})
  {
  }

  lemma CountsOutside(outer: map<NodeId, Node>, outer': map<NodeId, Node>, body: map<NodeId, Node>, p: Pushes)
    requires Counts(outer, body, p) && Within(outer, outer')
    ensures Counts(outer', body, p)
  {
    WithinItself(body);
    CountsMore(outer, body, outer', body, p, p);
  }

  lemma WiredAlike(d: BodyGradient, body: map<NodeId, Node>, b: Pops, b': Pops, states: nat)
    requires d.Wired(body, b, states) && b'.gradIns == b.gradIns && b'.outs == b.outs
    ensures d.Wired(body, b', states)
  {
    hide Has, Within;
    forall i | 0 <= i < states ensures d.GoesOut(body, b', i) { assert d.GoesOut(body, b, i); }
  }

  lemma WiredSizes(d: BodyGradient, body: map<NodeId, Node>, b: Pops, states: nat, values: seq<ValueId>)
    requires d.Wired(body, b, states) && PopsSome(body, values, b.popIns, b.popOuts, d.retained)
    ensures |b.gradIns| == |b.outs| == |d.ys| == states && states <= |d.xs| && |b.popIns| == |b.popOuts| == |values|
  {
  }
}
