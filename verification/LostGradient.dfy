/** compiler/gradient_ops.cc, LoopGradFn: a loop that does not run and loses the gradient of its
    state, because its body does not read the state. */
module LostGradient {
  import opened Ir
  import opened GraphIr
  import opened Builder
  import opened Worklist
  import opened Dual
  import opened ReverseMode
  import opened GradientOps
  import opened Gradient
  import opened GradientReach
  import opened Loops
  import opened LoopGradientMeaning
  import R = LoopGradientRuns
  import opened LoopGradient

  /** Nodes that read nothing. */
  ghost predicate ReadsNothing(node: map<NodeId, Node>) {
    forall n :: n in node ==> node[n].op.Constant? && node[n].inputs == []
  }

  lemma AddedReadsNothing(before: map<NodeId, Node>, after: map<NodeId, Node>, c: Data, v: ValueId)
    requires ReadsNothing(before) && NodesAdded(before, after, Node(Constant(c), [], [v])) && Within(before, after)
    ensures ReadsNothing(after)
  {
    forall n | n in after ensures after[n].op.Constant? && after[n].inputs == [] {
      if n in before { assert after[n] == before[n]; }
    }
  }

  lemma TwoMade(node: map<NodeId, Node>, producer: map<ValueId, NodeId>, c: Data, a: ValueId, e: Data, b: ValueId)
    requires Written(node, producer, {}) && producer.Keys == {a, b}
    requires Has(node, Node(Constant(c), [], [a])) && Has(node, Node(Constant(e), [], [b]))
    ensures NoStale(node, producer)
  {
    var n :| n in node && node[n] == Node(Constant(c), [], [a]);
    var m :| m in node && node[m] == Node(Constant(e), [], [b]);
    assert node[n].outputs[0] == a && node[m].outputs[0] == b;
    assert forall v :: v in producer ==> v in producer.Keys;
  }

  lemma GraphIsSsa(graph: Graph)
    requires graph.Valid({}) && NoStale(graph.node, graph.producer)
    ensures Snapshot(graph.node, graph.users, graph.producer, {}).Ssa()
    ensures Snapshot(graph.node, graph.users, graph.producer, {}).DefUse()
    ensures NodesBelow(graph.node, graph.nextValue)
  {
    hide Below, DefUse, Written;
    SnapshotDefUse(graph.node, graph.users, graph.producer, {});
    ValidIsBelow(graph);
    WrittenIsSsa(graph.node, graph.users, graph.producer);
  }

  lemma WrittenIsSsa(node: map<NodeId, Node>, users: map<ValueId, seq<NodeId>>, producer: map<ValueId, NodeId>)
    requires Written(node, producer, {}) && NoStale(node, producer)
    ensures Snapshot(node, users, producer, {}).Ssa()
  {
    forall n, i | n in node && 0 <= i < |node[n].outputs|
      ensures node[n].outputs[i] in producer && producer[node[n].outputs[i]] == n
    {
      assert node[n].outputs[i] in node[n].outputs;
    }
  }

  /** Such a body can be differentiated. */
  lemma ReadsNothingIsComplete(g: Snapshot, inputs: seq<ValueId>)
    requires g.DefUse() && g.Ssa() && g.nulls == {} && ReadsNothing(g.node) && Distinct(inputs)
    requires forall v :: v in inputs ==> v !in g.producer
    ensures Complete(g, inputs) && Fitting(g)
  {
    hide g.DefUse;
    var rank := map n | n in g.node :: 0;
    assert g.Ranks(g.node.Keys, rank);
  }

  lemma NothingMatters(loop: Loop, i: nat)
    requires loop.Fits() && i < loop.States() && ReadsNothing(loop.body)
    requires forall k :: 0 <= k < |loop.bodyOutputs| ==> loop.bodyOutputs[k] != loop.bodyInputs[2 + i]
    ensures !Matters(loop, i)
  {
    var x, ys := loop.bodyInputs[2 + i], loop.bodyOutputs[1..1 + loop.States()];
    forall path ensures !Leads(loop.body, path, x, ys) {
      if path != [] && path[0] in loop.body { assert loop.body[path[0]].inputs == []; }
    }
  }

  /** A body with one state that it overwrites. */
  method Overwriting() returns (body: Graph, ins: seq<ValueId>, outs: seq<ValueId>)
    ensures fresh(body) && body.Valid({}) && Listed(body) && ReadsNothing(body.node)
    ensures NoStale(body.node, body.producer)
    ensures ins == [0, 1, 2] && outs == [4, 3] && body.nextValue == 5
    ensures forall v :: v in ins ==> v !in body.producer
  {
    hide DefUse, Written, Below, NodesAdded, Within, ReadsNothing, NoStale, Has;
    body := new Graph();
    EmptyReadsNothing(body.node);
    var i := body.AddValue({});
    var c := body.AddValue({});
    var s := body.AddValue({});
    ghost var before := body.node;
    var five := Emit(body, Constant(Real(5.0)), []);
    AddedReadsNothing(before, body.node, Real(5.0), five);
    before := body.node;
    var again := Emit(body, Constant(Bool(true)), []);
    AddedReadsNothing(before, body.node, Bool(true), again);
    HasWithin(before, body.node, Node(Constant(Real(5.0)), [], [five]));
    TwoMade(body.node, body.producer, Real(5.0), five, Bool(true), again);
    ins, outs := [i, c, s], [again, five];
  }

  lemma EmptyReadsNothing(node: map<NodeId, Node>)
    requires node == map[]
    ensures ReadsNothing(node)
  {
  }

  /** The state comes in as `x` and leaves as `y`; the trip count is 0. */
  function Start(trip: ValueId, gy: ValueId): Env {
    (v: ValueId) => if v == trip then Int(0) else if v == gy then Real(1.0) else Real(0.0)
  }

  lemma StartRuns(kernels: Kernels, node: map<NodeId, Node>, loop: Loop, trip: ValueId, gy: ValueId)
    requires forall n :: n in node ==>
      node[n] == Node(Constant(Int(0)), [], [trip]) || node[n] == Node(Constant(Real(1.0)), [], [gy])
    requires loop.Fits() && |loop.inputs| == 3 && |loop.outputs| == 1 && loop.inputs[0] == trip && trip !in loop.nulls
    requires trip != gy && loop.inputs[2] != trip && loop.inputs[2] != gy && loop.outputs[0] != trip
    requires loop.outputs[0] != gy
    ensures Solves(kernels, node, Start(trip, gy)) && loop.Run(kernels, Start(trip, gy), [])
  {
    var env := Start(trip, gy);
    forall n | n in node ensures Holds(kernels, node[n], env) {
      assert Vals(env, []) == [] && Vals(env, [trip]) == [Int(0)] && Vals(env, [gy]) == [Real(1.0)];
    }
  }

  /** The graph around the loop: a trip count of 0, and 1 as the gradient of the result. */
  method Surroundings() returns (graph: Graph, trip: ValueId, c: ValueId, x: ValueId, y: ValueId, gy: ValueId)
    ensures NoStale(graph.node, graph.producer)
    ensures fresh(graph) && graph.Valid({}) && trip == 0 && c == 1 && x == 2 && y == 3 && gy == 4
    ensures graph.nextValue == 5
    ensures Has(graph.node, Node(Constant(Real(1.0)), [], [gy]))
    ensures forall n :: n in graph.node ==>
      graph.node[n] == Node(Constant(Int(0)), [], [trip]) || graph.node[n] == Node(Constant(Real(1.0)), [], [gy])
  {
    hide DefUse, Written, Below, NoStale;
    graph := new Graph();
    trip := Emit(graph, Constant(Int(0)), []);
    ghost var before := graph.node;
    c := graph.AddValue({});
    x := graph.AddValue({});
    y := graph.AddValue({});
    gy := Emit(graph, Constant(Real(1.0)), []);
    HasWithin(before, graph.node, Node(Constant(Int(0)), [], [trip]));
    TwoMade(graph.node, graph.producer, Int(0), trip, Real(1.0), gy);
  }

  lemma MayBeCalled(gc: GradientContext, loop: LoopNode)
    requires gc.Ok() && !gc.twoGraphs && gc.graph != loop.body && gc.graph.nextValue == 5
    requires NoStale(loop.body.node, loop.body.producer)
    requires loop.body.Valid({}) && Listed(loop.body) && ReadsNothing(loop.body.node) && loop.body.nextValue == 5
    requires loop.inputs == [0, 1, 2] && loop.outputs == [3] && loop.nulls == {1}
    requires loop.bodyInputs == [0, 1, 2] && loop.bodyOutputs == [4, 3]
    requires forall v :: v in loop.bodyInputs ==> v !in loop.body.producer
    ensures Callable(gc, loop, {})
  {
    hide gc.Ok, ReadsNothing, Complete, Fitting, Listed, NoStale;
    GraphIsSsa(loop.body);
    ReadsNothingIsComplete(Snapshot(loop.body.node, loop.body.users, loop.body.producer, {}), loop.bodyInputs);
    assert loop.bodyOutputs[1..2] == [3];
  }

  lemma JointRunFound(kernels: Kernels, forward: map<NodeId, Node>, first: map<NodeId, Node>, outer: map<NodeId, Node>,
                      loop: Loop, fwd: Loop, bwd: Loop, base: nat, inside: nat, start: Env)
    returns (env: Env)
    requires LoopsRunOn(forward, first, outer, loop, fwd, bwd, base, inside)
    requires Solves(kernels, forward, start) && Solves(kernels, first, start) && loop.Run(kernels, start, [])
    ensures JointRun(kernels, outer, fwd, bwd, env, [], [])
  {
    hide JointRun, Solves, loop.Run;
    assert R.JointlyContinues(kernels, outer, fwd, bwd, start, [], base, inside);
    var e: Env, envs: seq<Env>, backs: seq<Env> :| R.ContinuesBoth(kernels, outer, fwd, bwd, start, [], base, inside, e,
                                                                   envs, backs);
    assert envs == [] && backs == [];
    env := e;
  }

  /** The gradient of the result comes in, and goes no further. */
  lemma OneIsLost(kernels: Kernels, outer: map<NodeId, Node>, loop: Loop, fwd: Loop, p: Pushes, bwd: Loop, b: Pops,
                  d: BodyGradient, env: Env, first: Grads, after: Grads, gy: ValueId)
    requires Differentiated(outer, loop, fwd, p, bwd, b, d) && Solves(kernels, outer, env) && loop.Fits()
    requires loop.States() == 1 == |b.gys| && |loop.outputs| == 1 && |b.gxs| == 1 <= |d.xs|
    requires Propagates(outer, first, after, loop, b, d)
    requires first == map[loop.outputs[0] := gy] && Has(outer, Node(Constant(Real(1.0)), [], [gy])) && !Matters(loop, 0)
    ensures Lost(loop, b, env, loop.inputs[2]) == 1.0
  {
    hide Differentiated, Solves, Has, Matters;
    HasMeans(kernels, outer, env, Node(Constant(Real(1.0)), [], [gy]));
    Nullary(kernels, env, Constant(Real(1.0)), gy);
    assert RealOf(env(b.gys[0])) == GradOf(env, first, loop.outputs[0]) == 1.0;
    var f := FedBy(loop, Dropped(loop, b, env), loop.inputs[2]);
    assert ReverseMode.Sum(1, f) == ReverseMode.Sum(0, f) + f(0);
  }

  lemma Missed(kernels: Kernels, outer: map<NodeId, Node>, loop: Loop, fwd: Loop, p: Pushes, bwd: Loop, b: Pops,
               d: BodyGradient, env: Env)
    returns (tan: ValueId -> Number)
    requires Differentiated(outer, loop, fwd, p, bwd, b, d) && JointRun(kernels, outer, fwd, bwd, env, [], [])
    requires Distinct(loop.outputs) && (forall o :: o in loop.outputs ==> o !in loop.inputs) && loop.Fits()
    requires exists v: ValueId :: Lost(loop, b, env, v) != 0.0
    ensures TangentRun(loop, d, [], tan, []) && !LoopIsAdjoint(loop, b, d, env, tan)
  {
    hide Differentiated, JointRun, LoopIsAdjoint, Lost, TangentRun;
    LoopAdjoint(kernels, outer, loop, fwd, p, bwd, b, d, env, [], []);
    assert !NothingLost(loop, b, env);
    var t: ValueId -> Number, tans :| TangentRun(loop, d, [], t, tans) && !LoopIsAdjoint(loop, b, d, env, t);
    NoTangents(loop, d, t, tans);
    tan := t;
  }

  lemma NoTangents(loop: Loop, d: BodyGradient, tan: ValueId -> Number, tans: seq<ValueId -> Number>)
    requires TangentRun(loop, d, [], tan, tans)
    ensures tans == []
  {
  }

  lemma Sized(outer: map<NodeId, Node>, loop: Loop, fwd: Loop, p: Pushes, bwd: Loop, b: Pops, d: BodyGradient)
    requires Differentiated(outer, loop, fwd, p, bwd, b, d)
    ensures loop.Fits() && |b.gys| == |b.gxs| == loop.States() <= |d.xs| && |loop.outputs| == loop.States()
  {
    hide PopsAll, d.TwoGraphs, d.Wired, d.Adjoint, Within, Counts, Stacks, DropsExactly;
  }

  /** The graph, its gradients and the loop. */
  method Prepared() returns (gc: GradientContext, loop: LoopNode)
    ensures Callable(gc, loop, {}) && Belongs(gc, loop) && fresh(gc) && fresh(gc.graph) && fresh(loop)
    ensures fresh(loop.body)
    ensures loop.inputs == [0, 1, 2] && loop.outputs == [3] && loop.nulls == {1} && gc.grad == map[3 := 4]
    ensures loop.bodyInputs == [0, 1, 2] && loop.bodyOutputs == [4, 3] && ReadsNothing(loop.body.node)
    ensures loop.body.nextValue == 5
    ensures gc.g.node == gc.first == gc.graph.node && Has(gc.graph.node, Node(Constant(Real(1.0)), [], [4]))
    ensures forall n :: n in gc.first ==>
      gc.first[n] == Node(Constant(Int(0)), [], [0]) || gc.first[n] == Node(Constant(Real(1.0)), [], [4])
  {
    hide DefUse, Written, Below, Callable, ReadsNothing, Listed, NodesBelow, NoStale, NoneConstant, AllSound, Newer,
      Placeholders;
    var graph, trip, c, x, y, gy := Surroundings();
    var body, ins, outs := Overwriting();
    GraphIsSsa(graph);
    gc := new GradientContext(graph, Snapshot(graph.node, graph.users, graph.producer, {}), false, 0, map[y := gy]);
    loop := new LoopNode(body, [trip, c, x], [y], ins, outs, {c});
    MayBeCalled(gc, loop);
  }

  /** A run that the two loops have, and in which a gradient is lost. */
  lemma LostHere(kernels: Kernels, forward: map<NodeId, Node>, outer: map<NodeId, Node>, loop: Loop, fwd: Loop,
                 p: Pushes, bwd: Loop, b: Pops, d: BodyGradient, after: Grads, base: nat)
    returns (env: Env, tan: ValueId -> Number)
    requires loop.inputs == [0, 1, 2] && loop.outputs == [3] && loop.nulls == {1} && loop.Fits()
    requires loop.bodyInputs == [0, 1, 2] && loop.bodyOutputs == [4, 3] && ReadsNothing(loop.body)
    requires forall n :: n in forward ==>
      forward[n] == Node(Constant(Int(0)), [], [0]) || forward[n] == Node(Constant(Real(1.0)), [], [4])
    requires LoopsRunOn(forward, forward, outer, loop, fwd, bwd, base, 5)
    requires Has(outer, Node(Constant(Real(1.0)), [], [4]))
    requires Differentiated(outer, loop, fwd, p, bwd, b, d) && |b.gys| == |b.gxs| == 1 <= |d.xs|
    requires Propagates(outer, map[3 := 4], after, loop, b, d)
    ensures JointRun(kernels, outer, fwd, bwd, env, [], [])
    ensures TangentRun(loop, d, [], tan, []) && !LoopIsAdjoint(loop, b, d, env, tan)
  {
    hide Differentiated, Propagates, TangentRun, LoopIsAdjoint, LoopsRunOn, Matters, JointRun, ReadsNothing, Has,
      loop.Run, Solves;
    StartRuns(kernels, forward, loop, 0, 4);
    env := JointRunFound(kernels, forward, forward, outer, loop, fwd, bwd, base, 5, Start(0, 4));
    NothingMatters(loop, 0);
    JointSolves(kernels, outer, fwd, bwd, env);
    OneIsLost(kernels, outer, loop, fwd, p, bwd, b, d, env, map[3 := 4], after, 4);
    tan := Missed(kernels, outer, loop, fwd, p, bwd, b, d, env);
  }

  /** LoopGradFn on that loop: the two loops have a joint run, and the backward loop is not the adjoint. */
  method ZeroIterationsLoseGradient(ghost kernels: Kernels)
    returns (graph: Graph, loop: LoopNode, bwd: LoopNode?, ghost before: Loop, ghost p: Pushes, ghost b: Pops,
             ghost d: BodyGradient,
             ghost env: Env, ghost tan: ValueId -> Number)
    ensures bwd != null && Differentiated(graph.node, before, loop.Value(), p, bwd.Value(), b, d)
    ensures JointRun(kernels, graph.node, loop.Value(), bwd.Value(), env, [], [])
    ensures TangentRun(before, d, [], tan, []) && !LoopIsAdjoint(before, b, d, env, tan)
  {
    hide Differentiated, Propagates, TangentRun, LoopIsAdjoint, LoopsRunOn, JointRun, Callable, ReadsNothing, Grown,
      Has, Belongs;
    var gc;
    gc, loop := Prepared();
    graph, before := gc.graph, loop.Value();
    MustBeDone(gc, loop);
    ghost var forward := graph.node;
    bwd, p, b, d := LoopGradFn(gc, loop, {});
    HasGrown(forward, gc.retained, graph.node, gc.retained, Node(Constant(Real(1.0)), [], [4]));
    Sized(graph.node, before, loop.Value(), p, bwd.Value(), b, d);
    env, tan := LostHere(kernels, forward, graph.node, before, loop.Value(), p, bwd.Value(), b, d, gc.grad, gc.base);
  }

  lemma MustBeDone(gc: GradientContext, loop: LoopNode)
    requires gc.grad == map[3 := 4] && loop.outputs == [3]
    ensures HasGradient(gc.grad, loop.outputs)
  {
    assert loop.outputs[0] in gc.grad;
  }

  lemma JointSolves(kernels: Kernels, outer: map<NodeId, Node>, fwd: Loop, bwd: Loop, env: Env)
    requires JointRun(kernels, outer, fwd, bwd, env, [], [])
    ensures Solves(kernels, outer, env)
  {
  }

}
