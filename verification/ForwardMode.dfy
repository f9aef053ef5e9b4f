/** Forward mode: every run of a complete graph has tangents, whatever those of `xs` are, so the
    adjoint identity of module `Gradient` fixes the gradients. */
module ForwardMode {
  import opened Ir
  import opened Worklist
  import opened GraphIr
  import opened Builder
  import opened Dual
  import opened GradientOps
  import opened ReverseMode
  import opened Gradient
  import opened GradientRuns
  import GG = GradientGraphs

  /** Tangents before any node: those of `xs` are given, all others are zero. */
  ghost function Start(xs: seq<ValueId>, env: Env, du: ValueId -> real): ValueId -> Number {
    (v: ValueId) => Number(RealOf(env(v)), if v in xs then du(v) else 0.0)
  }

  /** What node `n` adds. */
  ghost function Push(xs: seq<ValueId>, env: Env, tan: ValueId -> Number, n: Node): ValueId -> Number {
    if Operand(env, n) && (n.op.Div? ==> tan(n.inputs[1]).re != 0.0) && n.outputs[0] !in xs then
      var r := DualApply(n.op, Duals(tan, n.inputs));
      (v: ValueId) => if v == n.outputs[0] then r else tan(v)
    else tan
  }

  ghost function Along(g: Snapshot, xs: seq<ValueId>, env: Env, du: ValueId -> real, order: seq<NodeId>,
                       k: nat): ValueId -> Number
    requires k <= |order| && forall n :: n in order ==> n in g.node
  {
    if k == 0 then Start(xs, env, du)
    else Push(xs, env, Along(g, xs, env, du, order, k - 1), (assert order[k - 1] in order; g.node[order[k - 1]]))
  }

  /** The real part is what the operator computes. */
  lemma PrimalOf(kernels: Kernels, env: Env, tan: ValueId -> Number, n: Node)
    requires Holds(kernels, n, env) && Operand(env, n) && Primal(env, tan) && (n.op.Div? ==> tan(n.inputs[1]).re != 0.0)
    ensures DualApply(n.op, Duals(tan, n.inputs)).re == RealOf(env(n.outputs[0]))
  {
    var args := Vals(env, n.inputs);
    assert Vals(env, n.outputs) == Apply(kernels, n.op, args);
    assert Vals(env, n.outputs)[0] == env(n.outputs[0]);
  }

  lemma {:induction false} AlongPrimal(kernels: Kernels, g: Snapshot, xs: seq<ValueId>, env: Env, du: ValueId -> real,
                                       order: seq<NodeId>, k: nat)
    requires k <= |order| && (forall n :: n in order ==> n in g.node) && Solves(kernels, g.node, env)
    ensures Primal(env, Along(g, xs, env, du, order, k))
  {
    if k > 0 {
      assert order[k - 1] in order;
      var n := g.node[order[k - 1]];
      var tan := Along(g, xs, env, du, order, k - 1);
      AlongPrimal(kernels, g, xs, env, du, order, k - 1);
      assert Holds(kernels, n, env);
      hide Holds, DualApply;
      if Operand(env, n) && (n.op.Div? ==> tan(n.inputs[1]).re != 0.0) { PrimalOf(kernels, env, tan, n); }
    }
  }

  /** Only outputs of the nodes so far have changed, and never those of `xs`. */
  lemma {:induction false} AlongOthers(g: Snapshot, xs: seq<ValueId>, env: Env, du: ValueId -> real, order: seq<NodeId>,
                                       low: nat, high: nat, v: ValueId)
    requires low <= high <= |order| && (forall n :: n in order ==> n in g.node)
    requires v in xs || forall j :: low <= j < high ==> v !in g.node[order[j]].outputs
    ensures Along(g, xs, env, du, order, high)(v) == Along(g, xs, env, du, order, low)(v)
  {
    if low < high {
      AlongOthers(g, xs, env, du, order, low, high - 1, v);
      assert order[high - 1] in order;
      var n := g.node[order[high - 1]];
      if Operand(env, n) { assert n.outputs[0] in n.outputs; }
    }
  }

  /** No tangent comes to an operator whose gradient is not modelled. */
  ghost predicate Modelled(g: Snapshot, xs: seq<ValueId>) {
    forall n :: n in g.node && Reachable(g, xs, n) ==> Differentiable(g.node[n].op) || LocallyConstant(g.node[n].op)
  }

  ghost predicate Unreached(g: Snapshot, xs: seq<ValueId>, v: ValueId) {
    v !in xs && (v in g.producer ==> !Reachable(g, xs, g.producer[v]))
  }

  /** What does not depend on `xs` has no tangent. */
  lemma {:induction false} AlongUnreached(g: Snapshot, xs: seq<ValueId>, env: Env, du: ValueId -> real,
                                          order: seq<NodeId>, k: nat, v: ValueId)
    requires g.DefUse() && g.Ssa() && k <= |order| && (forall n :: n in order ==> n in g.node) && Unreached(g, xs, v)
    ensures Along(g, xs, env, du, order, k)(v).du == 0.0
  {
    hide g.DefUse, DualApply, Reachable;
    if k > 0 {
      AlongUnreached(g, xs, env, du, order, k - 1, v);
      assert order[k - 1] in order;
      var n := g.node[order[k - 1]];
      var tan := Along(g, xs, env, du, order, k - 1);
      if Operand(env, n) && (n.op.Div? ==> tan(n.inputs[1]).re != 0.0) && n.outputs[0] == v {
        assert g.producer[v] == order[k - 1];
        forall i | 0 <= i < |n.inputs| ensures tan(n.inputs[i]).du == 0.0 {
          assert n.inputs[i] in n.inputs;
          InputUnreached(g, xs, order[k - 1], n.inputs[i]);
          AlongUnreached(g, xs, env, du, order, k - 1, n.inputs[i]);
        }
        ConstantApply(n.op, Duals(tan, n.inputs));
      }
    }
  }

  lemma InputUnreached(g: Snapshot, xs: seq<ValueId>, n: NodeId, x: ValueId)
    requires g.DefUse() && g.Ssa() && n in g.node && !Reachable(g, xs, n) && x in g.node[n].inputs
    ensures Unreached(g, xs, x)
  {
    hide Reachable;
    UserReads(g, x, n);
    ReachableUser(g, xs, x, n);
  }

  lemma AllInputsUnreached(g: Snapshot, xs: seq<ValueId>, env: Env, du: ValueId -> real, order: seq<NodeId>, n: NodeId)
    requires g.DefUse() && g.Ssa() && (forall m :: m in order ==> m in g.node) && n in g.node && !Reachable(g, xs, n)
    ensures forall x :: x in g.node[n].inputs ==> Along(g, xs, env, du, order, |order|)(x).du == 0.0
  {
    hide g.DefUse, Along, Reachable;
    forall x | x in g.node[n].inputs ensures Along(g, xs, env, du, order, |order|)(x).du == 0.0 {
      InputUnreached(g, xs, n, x);
      AlongUnreached(g, xs, env, du, order, |order|, x);
    }
  }

  /** Node `j` carries its tangents in the end. */
  lemma NodeCarries(kernels: Kernels, g: Snapshot, inputs: seq<ValueId>, xs: seq<ValueId>, env: Env,
                    du: ValueId -> real, order: seq<NodeId>, j: nat, v: ValueId)
    requires g.DefUse() && g.Ssa() && GoodInputs(g, inputs) && Topological(g, inputs, order) && Fitting(g)
    requires j < |order| && (forall n :: n in order ==> n in g.node) && Solves(kernels, g.node, env)
    requires v in g.node[order[j]].outputs && v !in xs && Modelled(g, xs)
    ensures Carries(env, Along(g, xs, env, du, order, |order|), g.node[order[j]], v)
  {
    hide g.DefUse, g.Ssa, GoodInputs, Topological, Primal, DualApply, Solves, Fitting, Reachable;
    assert order[j] in order;
    var n := g.node[order[j]];
    NodeHolds(kernels, g, env, order[j]);
    var before, after, end := Along(g, xs, env, du, order, j), Along(g, xs, env, du, order, j + 1), Along(g, xs, env,
                                    du, order, |order|);
    OnlyHere(g, inputs, order, j, v);
    AlongOthers(g, xs, env, du, order, j + 1, |order|, v);
    if Differentiable(n.op) {
      RunsFit(kernels, env, n);
      hide Holds;
      assert v == n.outputs[0];
      forall i | 0 <= i < |n.inputs| ensures end(n.inputs[i]) == before(n.inputs[i]) {
        InputSettled(g, inputs, order, j, n.inputs[i]);
        AlongOthers(g, xs, env, du, order, j, |order|, n.inputs[i]);
      }
      assert Duals(end, n.inputs) == Duals(before, n.inputs);
      AlongPrimal(kernels, g, xs, env, du, order, j);
      PrimalAt(env, before, n);
    } else {
      AlongOthers(g, xs, env, du, order, 0, j, v);
      assert after == before;
      if !LocallyConstant(n.op) { AllInputsUnreached(g, xs, env, du, order, order[j]); }
    }
  }

  lemma NodeHolds(kernels: Kernels, g: Snapshot, env: Env, id: NodeId)
    requires Solves(kernels, g.node, env) && id in g.node && Fitting(g)
    ensures Holds(kernels, g.node[id], env) && Fits(g.node[id])
  {
  }

  lemma PrimalAt(env: Env, tan: ValueId -> Number, n: Node)
    requires Primal(env, tan) && Operand(env, n)
    ensures n.op.Div? ==> tan(n.inputs[1]).re != 0.0
  {
  }

  lemma OnlyHere(g: Snapshot, inputs: seq<ValueId>, order: seq<NodeId>, j: nat, v: ValueId)
    requires g.Ssa() && Topological(g, inputs, order) && j < |order| && order[j] in g.node
    requires v in g.node[order[j]].outputs
    requires forall n :: n in order ==> n in g.node
    ensures forall i :: 0 <= i < |order| && i != j ==> v !in g.node[(assert order[i] in order; order[i])].outputs
  {
  }

  lemma InputSettled(g: Snapshot, inputs: seq<ValueId>, order: seq<NodeId>, j: nat, x: ValueId)
    requires g.DefUse() && g.Ssa() && GoodInputs(g, inputs) && Topological(g, inputs, order) && j < |order|
    requires (forall n :: n in order ==> n in g.node) && order[j] in g.node && x in g.node[order[j]].inputs
    ensures forall i :: j <= i < |order| ==> x !in g.node[(assert order[i] in order; order[i])].outputs
  {
    forall i | j <= i < |order| ensures x !in g.node[(assert order[i] in order; order[i])].outputs {
      WritesLater(g, inputs, order, j, i);
    }
  }

  /** Whatever the tangents of `xs` are, a run has tangents everywhere, unless they come to an
      operator whose gradient is not modelled. */
  lemma TangentsExist(kernels: Kernels, g: Snapshot, inputs: seq<ValueId>, xs: seq<ValueId>, env: Env,
                      du: ValueId -> real, order: seq<NodeId>)
    returns (tan: ValueId -> Number)
    requires g.DefUse() && g.Ssa() && GoodInputs(g, inputs) && Topological(g, inputs, order) && Fitting(g)
    requires (forall n :: n in order <==> n in g.node) && Solves(kernels, g.node, env) && Modelled(g, xs)
    ensures Tangents(g, xs, env, tan) && forall x :: x in xs ==> tan(x).du == du(x)
  {
    hide g.DefUse, GoodInputs, Topological, Carries, Fitting, Solves, Modelled;
    tan := Along(g, xs, env, du, order, |order|);
    AlongPrimal(kernels, g, xs, env, du, order, |order|);
    forall x | x in xs ensures tan(x).du == du(x) {
      AlongOthers(g, xs, env, du, order, 0, |order|, x);
    }
    forall v: ValueId | v !in g.producer && v !in xs ensures tan(v).du == 0.0 {
      NobodyWrites(g, order, v);
      AlongOthers(g, xs, env, du, order, 0, |order|, v);
    }
    forall n, v | n in g.node && v in g.node[n].outputs && v !in xs ensures Carries(env, tan, g.node[n], v) {
      var j :| 0 <= j < |order| && order[j] == n;
      NodeCarries(kernels, g, inputs, xs, env, du, order, j, v);
    }
  }

  lemma NobodyWrites(g: Snapshot, order: seq<NodeId>, v: ValueId)
    requires g.Ssa() && v !in g.producer && forall n :: n in order ==> n in g.node
    ensures forall j :: 0 <= j < |order| ==> v !in g.node[(assert order[j] in order; order[j])].outputs
  {
  }

  /** The adjoint identity leaves no choice: two lists of gradients at `xs` that both satisfy it are equal. */
  lemma GradientsUnique(kernels: Kernels, g: Snapshot, inputs: seq<ValueId>, xs: seq<ValueId>, ys: seq<ValueId>,
                        env: Env, order: seq<NodeId>, seed: ValueId -> real, a: ValueId -> real, b: ValueId -> real,
                        x: ValueId)
    requires g.DefUse() && g.Ssa() && GoodInputs(g, inputs) && Topological(g, inputs, order) && Fitting(g)
    requires (forall n :: n in order <==> n in g.node) && Solves(kernels, g.node, env) && Distinct(xs) && x in xs
    requires Modelled(g, xs)
    requires forall tan: ValueId -> Number :: Tangents(g, xs, env, tan) ==> Inner(ys, seed, tan) == Inner(xs, a, tan)
    requires forall tan: ValueId -> Number :: Tangents(g, xs, env, tan) ==> Inner(ys, seed, tan) == Inner(xs, b, tan)
    ensures a(x) == b(x)
  {
    hide g.DefUse, GoodInputs, Topological, Tangents, Fitting, Solves, Modelled;
    var du := (v: ValueId) => if v == x then 1.0 else 0.0;
    var tan := TangentsExist(kernels, g, inputs, xs, env, du, order);
    InnerUnit(xs, a, tan, x);
    InnerUnit(xs, b, tan, x);
  }

  lemma {:induction false} InnerUnit(vs: seq<ValueId>, gradient: ValueId -> real, tan: ValueId -> Number, x: ValueId)
    requires Distinct(vs) && forall v :: v in vs ==> tan(v).du == if v == x then 1.0 else 0.0
    ensures Inner(vs, gradient, tan) == if x in vs then gradient(x) else 0.0
  {
    var f := (v: ValueId) => gradient(v) * tan(v).du;
    if vs != [] {
      var init, last := vs[..|vs| - 1], vs[|vs| - 1];
      assert vs == init + [last];
      assert last in vs && last !in init && forall v :: v in init ==> v in vs;
      InnerUnit(init, gradient, tan, x);
    }
  }

  // ---- one graph or two ----

  /** The nodes of a complete graph can be put in an order in which they run. */
  lemma OrderExists(g: Snapshot, inputs: seq<ValueId>) returns (order: seq<NodeId>)
    requires Complete(g, inputs)
    ensures Topological(g, inputs, order) && forall n :: n in order <==> n in g.node
  {
    hide g.DefUse, g.Ssa, GoodInputs;
    var rank :| g.Ranks(g.node.Keys, rank);
    order := OrderFrom(g, inputs, rank, g.node.Keys, []);
  }

  lemma OrderFrom(g: Snapshot, inputs: seq<ValueId>, rank: map<NodeId, nat>, rest: set<NodeId>, before: seq<NodeId>)
    returns (order: seq<NodeId>)
    requires g.Ssa() && Closed(g, inputs, g.node.Keys) && g.Ranks(g.node.Keys, rank) && Topological(g, inputs, before)
    requires rest <= g.node.Keys && forall n :: n in before <==> n in g.node && n !in rest
    requires forall a, b :: a in before && b in rest ==> a in rank && b in rank && rank[a] <= rank[b]
    ensures Topological(g, inputs, order) && forall n :: n in order <==> n in g.node
    decreases |rest|
  {
    if rest == {} { return before; }
    var n := Lowest(rest, rank);
    LowestRuns(g, inputs, rank, rest, before, n);
    order := OrderFrom(g, inputs, rank, rest - {n}, before + [n]);
  }

  lemma Lowest(rest: set<NodeId>, rank: map<NodeId, nat>) returns (n: NodeId)
    requires rest != {} && rest <= rank.Keys
    ensures n in rest && forall m :: m in rest ==> rank[n] <= rank[m]
  {
    n :| n in rest;
    if rest != {n} {
      var m := Lowest(rest - {n}, rank);
      if rank[m] < rank[n] { n := m; }
    }
  }

  lemma LowestRuns(g: Snapshot, inputs: seq<ValueId>, rank: map<NodeId, nat>, rest: set<NodeId>, before: seq<NodeId>,
                   n: NodeId)
    requires g.Ssa() && Closed(g, inputs, g.node.Keys) && g.Ranks(g.node.Keys, rank) && Topological(g, inputs, before)
    requires rest <= g.node.Keys && forall m :: m in before <==> m in g.node && m !in rest
    requires n in rest && forall m :: m in rest ==> m in rank && rank[n] <= rank[m]
    ensures Topological(g, inputs, before + [n])
  {
    forall v | v in g.node[n].inputs && v !in g.nulls ensures Available(g, inputs, before, v) {
      if v !in inputs {
        var p := g.producer[v];
        assert g.Edge(p, n);
      }
    }
    var all := before + [n];
    forall j | 0 <= j < |all| ensures all[j] in g.node && Runnable(g, inputs, all[..j], all[j]) {
      if j < |before| { assert all[..j] == before[..j]; } else { assert all[..j] == before; }
    }
  }

  /** The tangents of one run, with the values of another. */
  ghost function Retuned(env: Env, tan: ValueId -> Number): ValueId -> Number {
    (v: ValueId) => Number(RealOf(env(v)), tan(v).du)
  }

  /** Two runs with the same forward values have the same tangents. */
  lemma SameTangents(g: Snapshot, xs: seq<ValueId>, env: Env, env': Env, tan: ValueId -> Number, base: nat)
    requires Tangents(g, xs, env, tan) && NodesBelow(g.node, base) && AgreeBelow(env, env', base)
    ensures Tangents(g, xs, env', Retuned(env', tan))
  {
    hide Carries;
    forall n, v | n in g.node && v in g.node[n].outputs && v !in xs
      ensures Carries(env', Retuned(env', tan), g.node[n], v)
    {
      assert Carries(env, tan, g.node[n], v) && BelowNode(g.node[n], base);
      SameCarries(g.node[n], env, env', tan, base, v);
    }
  }

  lemma SameCarries(n: Node, env: Env, env': Env, tan: ValueId -> Number, base: nat, v: ValueId)
    requires Carries(env, tan, n, v) && Primal(env, tan) && BelowNode(n, base) && v in n.outputs
    requires AgreeBelow(env, env', base)
    ensures Carries(env', Retuned(env', tan), n, v)
  {
    var tan' := Retuned(env', tan);
    forall i | 0 <= i < |n.inputs|
      ensures tan'(n.inputs[i]) == tan(n.inputs[i]) && env'(n.inputs[i]) == env(n.inputs[i])
    {
      assert n.inputs[i] in n.inputs;
    }
    assert Duals(tan', n.inputs) == Duals(tan, n.inputs);
    assert tan'(v) == tan(v);
  }

  lemma InnerRetuned(vs: seq<ValueId>, a: ValueId -> real, b: ValueId -> real, env: Env, tan: ValueId -> Number)
    requires forall v :: v in vs ==> a(v) == b(v)
    ensures Inner(vs, a, tan) == Inner(vs, b, Retuned(env, tan))
  {
    OverEqual(vs, (v: ValueId) => a(v) * tan(v).du, (v: ValueId) => b(v) * Retuned(env, tan)(v).du);
  }

  /** Gradients made in one graph and in two are the same: take the graphs that two calls of
      GenerateGradientNodesImpl leave behind, and a run of each, with the same forward values and
      the same gradients of the outputs. */
  lemma OneGraphOrTwo(kernels: Kernels, g: Snapshot, inputs: seq<ValueId>, xs: seq<ValueId>, ys: seq<ValueId>,
                      base: nat, one: map<NodeId, Node>, first: Grads, grad: Grads, env: Env,
                      forward: map<NodeId, Node>, backward: map<NodeId, Node>, feeds: GG.Feeds, first': Grads,
                      grad': Grads, env': Env, x: ValueId)
    requires Complete(g, inputs) && Fitting(g) && NodesBelow(g.node, base) && Distinct(xs) && x in xs && Modelled(g, xs)
    requires GG.Backpropagates(one, one, map[], g, first, grad, xs, ys) && Within(g.node, one)
    requires GG.Backpropagates(forward, backward, feeds, g, first', grad', xs, ys)
    requires Solves(kernels, one, env) && Solves(kernels, forward, env') && Solves(kernels, backward, env')
    requires GG.Fed(env', feeds)
    requires AgreeBelow(env, env', base) && forall y :: y in ys ==> GradOf(env, first, y) == GradOf(env', first', y)
    ensures GradOf(env, grad, x) == GradOf(env', grad', x)
  {
    hide Solves, Tangents, Fitting, NodesBelow, Within, Inner, Complete, Retuned, Modelled;
    var order := OrderExists(g, inputs);
    SolvesWithin(kernels, g.node, one, env);
    var seed, a, b := Gradients(env, first), Gradients(env, grad), Gradients(env', grad');
    assert GG.Fed(env, map[]);
    forall tan: ValueId -> Number | Tangents(g, xs, env, tan) ensures Inner(ys, seed, tan) == Inner(xs, b, tan) {
      SameTangents(g, xs, env, env', tan, base);
      InnerRetuned(ys, seed, Gradients(env', first'), env', tan);
      InnerRetuned(xs, b, b, env', tan);
    }
    CompleteParts(g, inputs);
    GradientsUnique(kernels, g, inputs, xs, ys, env, order, seed, a, b, x);
  }

  lemma CompleteParts(g: Snapshot, inputs: seq<ValueId>)
    requires Complete(g, inputs)
    ensures g.DefUse() && g.Ssa() && GoodInputs(g, inputs)
  {
  }
}
