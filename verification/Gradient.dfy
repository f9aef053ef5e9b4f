/** compiler/gradient.cc: backpropagation through the nodes between `xs` and `ys`. */
module Gradient {
  import opened Ir
  import opened GraphIr
  import opened Worklist
  import opened Builder
  import opened Dual
  import opened GradientOps
  import opened ReverseMode
  import Scheduler
  import Topology

  // ---- the nodes that depend on xs ----

  /** `nodes` has the users of `xs`, and of the outputs of all its nodes. */
  ghost predicate UsersClosed(g: Snapshot, xs: seq<ValueId>, nodes: set<NodeId>) {
    && (forall x, n :: x in xs && n in g.Users(x) ==> n in nodes)
    && (forall m, v, n :: m in nodes && m in g.node && v in g.node[m].outputs && n in g.Users(v) ==> n in nodes)
  }

  ghost predicate Reachable(g: Snapshot, xs: seq<ValueId>, n: NodeId) {
    n in g.node && forall nodes: set<NodeId> :: UsersClosed(g, xs, nodes) ==> n in nodes
  }

  /** The users of all of `vs`. */
  method UsersOfAll(g: Snapshot, vs: seq<ValueId>) returns (q: seq<NodeId>)
    ensures forall n :: n in q <==> exists v :: v in vs && n in g.Users(v)
  {
    q := [];
    var i := 0;
    while i < |vs|
      invariant 0 <= i <= |vs|
      invariant forall n :: n in q <==> exists k :: 0 <= k < i && n in g.Users(vs[k])
    {
      q := q + g.Users(vs[i]);
      i := i + 1;
    }
  }

  /** What is seen or stacked is reachable, and what is reachable is seen or comes from the stack. */
  ghost predicate Seeing(g: Snapshot, xs: seq<ValueId>, seen: set<NodeId>, stack: seq<NodeId>) {
    && (forall n :: n in seen || n in stack ==> Reachable(g, xs, n))
    && (forall x, n :: x in xs && n in g.Users(x) ==> n in seen || n in stack)
    && (forall m, v, n :: m in seen && m in g.node && v in g.node[m].outputs && n in g.Users(v) ==>
          n in seen || n in stack)
  }

  lemma StartSeeing(g: Snapshot, xs: seq<ValueId>, stack: seq<NodeId>)
    requires g.DefUse() && forall n :: n in stack <==> exists v :: v in xs && n in g.Users(v)
    ensures Seeing(g, xs, {}, stack)
  {
    forall n | n in stack ensures Reachable(g, xs, n) {
      var v :| v in xs && n in g.Users(v);
      UserReads(g, v, n);
    }
  }

  lemma SeeNext(g: Snapshot, xs: seq<ValueId>, seen: set<NodeId>, rest: seq<NodeId>, n: NodeId, more: seq<NodeId>)
    requires g.DefUse() && Seeing(g, xs, seen, rest + [n]) && n in g.node
    requires forall m :: m in more <==> exists v :: v in g.node[n].outputs && m in g.Users(v)
    ensures Seeing(g, xs, seen + {n}, rest + more)
  {
    assert n in rest + [n];
    forall m | m in more ensures Reachable(g, xs, m) {
      var v :| v in g.node[n].outputs && m in g.Users(v);
      UserReads(g, v, m);
      forall nodes: set<NodeId> | UsersClosed(g, xs, nodes) ensures m in nodes {
        assert n in nodes;
      }
    }
    forall x, m | x in xs && m in g.Users(x) ensures m in seen + {n} || m in rest + more {
      assert m in seen || m in rest + [n];
    }
    forall k, v, m | k in seen + {n} && k in g.node && v in g.node[k].outputs && m in g.Users(v)
      ensures m in seen + {n} || m in rest + more
    {
      if k != n { assert m in seen || m in rest + [n]; }
    }
  }

  lemma SeeAgain(g: Snapshot, xs: seq<ValueId>, seen: set<NodeId>, rest: seq<NodeId>, n: NodeId)
    requires Seeing(g, xs, seen, rest + [n]) && n in seen
    ensures Seeing(g, xs, seen, rest)
  {
    forall m | m in rest + [n] ensures m in seen || m in rest {
    }
    forall m | m in rest ensures Reachable(g, xs, m) { assert m in rest + [n]; }
  }

  /** FilterOutUnnecessaryNode: keeps the nodes that depend on `xs`. */
  method FilterOutUnnecessaryNode(g: Snapshot, xs: seq<ValueId>, nodeSet: map<NodeId, nat>)
    returns (kept: map<NodeId, nat>)
    requires g.DefUse()
    ensures forall n :: n in kept <==> n in nodeSet && Reachable(g, xs, n)
    ensures forall n :: n in kept ==> kept[n] == nodeSet[n]
  {
    var stack := UsersOfAll(g, xs);
    var seen: set<NodeId> := {};
    StartSeeing(g, xs, stack);
    hide *;
    while stack != []
      invariant seen <= g.node.Keys && Seeing(g, xs, seen, stack)
      decreases g.node.Keys - seen, |stack|
    {
      var n, rest := stack[|stack| - 1], stack[..|stack| - 1];
      assert stack == rest + [n];
      if n in seen {
        SeeAgain(g, xs, seen, rest, n);
        stack := rest;
      } else {
        StackIsNode(g, xs, seen, stack, n);
        var more := UsersOfAll(g, g.node[n].outputs);
        SeeNext(g, xs, seen, rest, n, more);
        assert g.node.Keys - (seen + {n}) < g.node.Keys - seen by {
          assert n in g.node.Keys - seen && n !in g.node.Keys - (seen + {n});
        }
        seen := seen + {n};
        stack := rest + more;
      }
    }
    AllSeen(g, xs, seen);
    kept := map n | n in nodeSet && n in seen :: nodeSet[n];
  }

  lemma StackIsNode(g: Snapshot, xs: seq<ValueId>, seen: set<NodeId>, stack: seq<NodeId>, n: NodeId)
    requires Seeing(g, xs, seen, stack) && n in stack
    ensures n in g.node
  {
  }

  lemma AllSeen(g: Snapshot, xs: seq<ValueId>, seen: set<NodeId>)
    requires Seeing(g, xs, seen, [])
    ensures forall n :: n in seen <==> Reachable(g, xs, n)
    ensures UsersClosed(g, xs, seen)
  {
    assert UsersClosed(g, xs, seen);
  }

  // ---- forward tangents ----

  /** The graph a caller may differentiate: all its nodes, from its inputs on, without a cycle. */
  ghost predicate Complete(g: Snapshot, inputs: seq<ValueId>) {
    && g.DefUse() && g.Ssa() && GoodInputs(g, inputs)
    && Closed(g, inputs, g.node.Keys) && g.AcyclicOn(g.node.Keys)
  }

  /** Node::Validate for the operators with gradients. */
  ghost predicate Fits(n: Node) {
    Differentiable(n.op) ==> |n.inputs| == Arity(n.op) && |n.outputs| == 1
  }

  /** Tangents of a run when only `xs` vary. */
  ghost predicate Tangents(g: Snapshot, xs: seq<ValueId>, env: Env, tan: ValueId -> Number) {
    && Primal(env, tan)
    && (forall v: ValueId :: v !in g.producer && v !in xs ==> tan(v).du == 0.0)
    && (forall n, v :: n in g.node && v in g.node[n].outputs && v !in xs ==> Carries(env, tan, g.node[n], v))
  }

  /** Without tangents coming in, none goes out. */
  lemma ConstantNode(env: Env, tan: ValueId -> Number, n: Node, v: ValueId)
    requires Carries(env, tan, n, v) && forall x :: x in n.inputs ==> tan(x).du == 0.0
    ensures tan(v).du == 0.0
  {
    if Differentiable(n.op) {
      var args := Duals(tan, n.inputs);
      forall i | 0 <= i < |args| ensures args[i].du == 0.0 { assert n.inputs[i] in n.inputs; }
      ConstantApply(n.op, args);
    }
  }

  lemma ConstantApply(op: Op, args: seq<Number>)
    requires Differentiable(op) && |args| == Arity(op) && (op.Div? ==> args[1].re != 0.0)
    requires forall i :: 0 <= i < |args| ==> args[i].du == 0.0
    ensures DualApply(op, args).du == 0.0
  {
    if op.Div? { SquaredNonZero(args[1].re); }
  }

  /** Only nodes reachable from `xs` have outputs that vary. */
  lemma {:induction false} UnreachedIsConstant(g: Snapshot, inputs: seq<ValueId>, xs: seq<ValueId>, order: seq<NodeId>,
                                               env: Env, tan: ValueId -> Number, k: nat, v: ValueId)
    requires g.DefUse() && g.Ssa() && GoodInputs(g, inputs) && Topological(g, inputs, order)
    requires Tangents(g, xs, env, tan)
    requires k < |order| && !Reachable(g, xs, order[k]) && v in g.node[order[k]].outputs && v !in xs
    ensures tan(v).du == 0.0
    decreases k
  {
    hide Carries, Reachable;
    var n := order[k];
    forall x | x in g.node[n].inputs ensures tan(x).du == 0.0 {
      UserReads(g, x, n);
      ReachableUser(g, xs, x, n);
      if x in g.producer && x !in xs {
        var i :| 0 <= i < |order[..k]| && order[..k][i] == g.producer[x];
        UnreachedIsConstant(g, inputs, xs, order, env, tan, i, x);
      }
    }
    assert Carries(env, tan, g.node[n], v);
    ConstantNode(env, tan, g.node[n], v);
  }

  /** What reads `xs`, or an output of a reachable node, is reachable. */
  lemma ReachableUser(g: Snapshot, xs: seq<ValueId>, x: ValueId, n: NodeId)
    requires n in g.Users(x) && n in g.node && g.Ssa()
    ensures x in xs ==> Reachable(g, xs, n)
    ensures x in g.producer && Reachable(g, xs, g.producer[x]) ==> Reachable(g, xs, n)
  {
  }

  // ---- the nodes to go through ----

  function NodesOf(g: Snapshot, ids: seq<NodeId>): (r: seq<Node>)
    requires forall n :: n in ids ==> n in g.node
    ensures |r| == |ids| && forall i :: 0 <= i < |ids| ==> r[i] == g.node[ids[i]]
  {
    seq(|ids|, i requires 0 <= i < |ids| => (assert ids[i] in ids; g.node[ids[i]]))
  }

  /** No node of `ids` writes anything that it or an earlier one reads. */
  ghost predicate ReadLater(g: Snapshot, ids: seq<NodeId>) {
    && Distinct(ids)
    && (forall n :: n in ids ==> n in g.node)
    && (forall i, j :: 0 <= i <= j < |ids| ==> Unread(g, ids[i], ids[j]))
  }

  ghost predicate Unread(g: Snapshot, reader: NodeId, writer: NodeId) {
    reader in g.node && writer in g.node && forall v :: v in g.node[writer].outputs ==> v !in g.node[reader].inputs
  }

  lemma WritesLater(g: Snapshot, inputs: seq<ValueId>, order: seq<NodeId>, k: nat, i: nat)
    requires g.DefUse() && g.Ssa() && GoodInputs(g, inputs) && Topological(g, inputs, order) && k <= i < |order|
    ensures Unread(g, order[k], order[i])
  {
    var n := order[i];
    assert n !in order[..k] && Runnable(g, inputs, order[..k], order[k]);
    forall v | v in g.node[n].outputs ensures v !in g.node[order[k]].inputs {
      UserReads(g, v, order[k]);
      assert v in g.producer && g.producer[v] == n;
    }
  }

  /** The nodes of `order` that are in `chosen`, last first. */
  method ReverseOfNecessary(g: Snapshot, ghost inputs: seq<ValueId>, order: seq<NodeId>, chosen: map<NodeId, nat>)
    returns (necessary: seq<NodeId>)
    requires g.DefUse() && g.Ssa() && GoodInputs(g, inputs) && Topological(g, inputs, order)
    ensures forall n :: n in necessary <==> n in order && n in chosen
    ensures ReadLater(g, Reversed(necessary))
  {
    hide *;
    var forwards: seq<NodeId> := [];
    NoneReadLater(g);
    var i := 0;
    while i < |order|
      invariant 0 <= i <= |order|
      invariant forall n :: n in forwards <==> n in order[..i] && n in chosen
      invariant ReadLater(g, forwards)
    {
      assert order[..i + 1] == order[..i] + [order[i]];
      if order[i] in chosen {
        OneMore(g, inputs, order, i, forwards);
        forwards := forwards + [order[i]];
      }
      i := i + 1;
    }
    assert order[..i] == order;
    necessary := Reversed(forwards);
    ReversedTwice(forwards);
  }

  lemma NoneReadLater(g: Snapshot)
    ensures ReadLater(g, [])
  {
  }

  lemma OneMore(g: Snapshot, inputs: seq<ValueId>, order: seq<NodeId>, i: nat, forwards: seq<NodeId>)
    requires g.DefUse() && g.Ssa() && GoodInputs(g, inputs) && Topological(g, inputs, order) && i < |order|
    requires ReadLater(g, forwards) && forall n :: n in forwards ==> n in order[..i]
    ensures ReadLater(g, forwards + [order[i]])
  {
    hide g.DefUse, g.Ssa, GoodInputs, Unread, Runnable;
    var after := forwards + [order[i]];
    assert order[i] !in order[..i];
    DistinctConcat(forwards, [order[i]]);
    forall a, b | 0 <= a <= b < |after| ensures Unread(g, after[a], after[b]) {
      if b == |forwards| {
        if a < b {
          assert forwards[a] in order[..i];
          var k :| 0 <= k < i && order[k] == forwards[a];
          WritesLater(g, inputs, order, k, i);
        } else {
          WritesLater(g, inputs, order, i, i);
        }
      } else {
        assert Unread(g, forwards[a], forwards[b]);
      }
    }
  }

  /** Reversed, every value is read before the node that writes it comes up. */
  lemma ReversedConsumersFirst(g: Snapshot, ids: seq<NodeId>)
    requires g.Ssa() && ReadLater(g, Reversed(ids)) && forall n :: n in ids ==> n in g.node
    ensures ConsumersFirst(NodesOf(g, ids))
  {
    var nodes, back := NodesOf(g, ids), Reversed(ids);
    forall j | 0 <= j < |nodes| ensures InTurn(nodes[..j], nodes[j]) {
      TurnComes(g, ids, j);
    }
  }

  lemma TurnComes(g: Snapshot, ids: seq<NodeId>, j: nat)
    requires g.Ssa() && ReadLater(g, Reversed(ids)) && forall n :: n in ids ==> n in g.node
    requires j < |ids|
    ensures InTurn(NodesOf(g, ids)[..j], NodesOf(g, ids)[j])
  {
    var nodes, back := NodesOf(g, ids), Reversed(ids);
    var n := nodes[j];
    var top := |ids| - 1;
    assert back[top - j] == ids[j];
    assert nodes[..j] + [n] == nodes[..j + 1];
    forall v | v in n.inputs ensures !WrittenBy(nodes[..j] + [n], v) {
      forall i | 0 <= i < j + 1 ensures v !in nodes[i].outputs {
        assert back[top - i] == ids[i];
        assert Unread(g, back[top - j], back[top - i]);
      }
    }
    forall v | v in n.outputs ensures !WrittenBy(nodes[..j], v) {
      forall i | 0 <= i < j ensures v !in nodes[i].outputs {
        assert back[top - i] == ids[i] && ids[i] != ids[j];
        assert g.producer[v] == ids[j];
      }
    }
  }

  // ---- why the result is the adjoint ----

  /** Nothing is passed back to a value that `ys` do not need. */
  lemma {:induction false} UnneededIsZero(g: Snapshot, ys: seq<ValueId>, needed: set<NodeId>, ids: seq<NodeId>,
                                          env: Env, seed: ValueId -> real, v: ValueId)
    requires Scheduler.Sufficient(g, ys, needed) && forall n :: n in ids ==> n in g.node && n in needed
    requires forall w: ValueId :: w !in ys ==> seed(w) == 0.0
    requires v in g.producer && g.producer[v] !in needed
    ensures Backward(env, NodesOf(g, ids), seed, v) == 0.0
  {
    hide Contribution;
    if ids != [] {
      var before, id := ids[..|ids| - 1], ids[|ids| - 1];
      assert id in ids && forall n :: n in before ==> n in ids;
      UnneededIsZero(g, ys, needed, before, env, seed, v);
      assert NodesOf(g, ids) == NodesOf(g, before) + [g.node[id]];
      BackwardMore(env, NodesOf(g, before), g.node[id], seed, v);
      assert v !in g.node[id].inputs;
      if Operand(env, g.node[id]) {
        NoContribution(env, g.node[id], Backward(env, NodesOf(g, before), seed, g.node[id].outputs[0]), v);
      }
    }
  }

  lemma NoContribution(env: Env, n: Node, gy: real, v: ValueId)
    requires Operand(env, n) && v !in n.inputs
    ensures Contribution(env, n, gy, v) == 0.0
  {
  }

  /** None of `xs` is computed from another. */
  ghost predicate Independent(g: Snapshot, xs: seq<ValueId>) {
    && Distinct(xs)
    && forall x :: x in xs && x in g.producer ==> !Reachable(g, xs, g.producer[x])
  }

  /** The nodes that gradients are propagated through: needed for `ys` and dependent on `xs`. */
  ghost predicate Chosen(g: Snapshot, xs: seq<ValueId>, ys: seq<ValueId>, needed: set<NodeId>, ids: seq<NodeId>) {
    && Scheduler.Sufficient(g, ys, needed)
    && (forall n :: n in ids <==> n in g.node && n in needed && Reachable(g, xs, n))
    && ReadLater(g, Reversed(ids))
  }

  /** Values outside `xs` have either no gradient or no tangent left. */
  lemma NothingElsePending(g: Snapshot, inputs: seq<ValueId>, xs: seq<ValueId>, ys: seq<ValueId>, order: seq<NodeId>,
                           needed: set<NodeId>, ids: seq<NodeId>, env: Env, seed: ValueId -> real,
                           tan: ValueId -> Number, v: ValueId)
    requires g.DefUse() && g.Ssa() && GoodInputs(g, inputs) && Topological(g, inputs, order)
    requires Tangents(g, xs, env, tan)
    requires Chosen(g, xs, ys, needed, ids) && forall n :: n in g.node ==> n in order
    requires forall w: ValueId :: w !in ys ==> seed(w) == 0.0
    requires v !in xs && !WrittenBy(NodesOf(g, ids), v)
    ensures Backward(env, NodesOf(g, ids), seed, v) == 0.0 || tan(v).du == 0.0
  {
    hide Backward, Reachable, Topological, Carries, GoodInputs, g.DefUse;
    if v in g.producer {
      var n := g.producer[v];
      if n !in needed {
        UnneededIsZero(g, ys, needed, ids, env, seed, v);
      } else {
        forall i | 0 <= i < |ids| ensures ids[i] != n {
          assert v !in NodesOf(g, ids)[i].outputs;
        }
        assert n !in ids;
        var k :| 0 <= k < |order| && order[k] == n;
        UnreachedIsConstant(g, inputs, xs, order, env, tan, k, v);
      }
    }
  }

  lemma ChosenIsAdjoint(g: Snapshot, inputs: seq<ValueId>, xs: seq<ValueId>, ys: seq<ValueId>, order: seq<NodeId>,
                        needed: set<NodeId>, ids: seq<NodeId>, env: Env, seed: ValueId -> real,
                        tan: ValueId -> Number, bound: nat)
    requires g.DefUse() && g.Ssa() && GoodInputs(g, inputs) && Topological(g, inputs, order)
    requires Tangents(g, xs, env, tan)
    requires Chosen(g, xs, ys, needed, ids) && forall n :: n in g.node ==> n in order
    requires Independent(g, xs) && Distinct(ys) && NodesBelow(g.node, bound) && AllIn(xs, bound) && AllIn(ys, bound)
    requires forall w: ValueId :: w !in ys ==> seed(w) == 0.0
    ensures Inner(ys, seed, tan) == Inner(xs, (v: ValueId) => Backward(env, NodesOf(g, ids), seed, v), tan)
  {
    hide Backward, Reachable, Topological, Carries, GoodInputs, g.DefUse, Inner, ConsumersFirst, ReadLater;
    var nodes := NodesOf(g, ids);
    ReversedConsumersFirst(g, ids);
    forall v: ValueId | v in xs ensures !WrittenBy(nodes, v) {
      XsUnwritten(g, xs, ys, needed, ids, v);
    }
    forall i, v | 0 <= i < |nodes| && v in nodes[i].outputs ensures Carries(env, tan, nodes[i], v) {
      assert WrittenBy(nodes, v);
    }
    forall v: ValueId | v !in xs && !WrittenBy(nodes, v)
      ensures Backward(env, nodes, seed, v) == 0.0 || tan(v).du == 0.0
    {
      NothingElsePending(g, inputs, xs, ys, order, needed, ids, env, seed, tan, v);
    }
    Adjoint(env, nodes, seed, tan, bound, xs, ys);
  }

  lemma XsUnwritten(g: Snapshot, xs: seq<ValueId>, ys: seq<ValueId>, needed: set<NodeId>, ids: seq<NodeId>, v: ValueId)
    requires g.Ssa() && Chosen(g, xs, ys, needed, ids) && Independent(g, xs) && v in xs
    ensures !WrittenBy(NodesOf(g, ids), v)
  {
    hide Reachable, ReadLater, Scheduler.Sufficient;
    forall i | 0 <= i < |ids| ensures v !in NodesOf(g, ids)[i].outputs {
      assert ids[i] in ids;
    }
  }

  // ---- the pass ----

  ghost function Gradients(env: Env, grad: Grads): ValueId -> real {
    (v: ValueId) => GradOf(env, grad, v)
  }

  /** In every run, what is recorded are the gradients of going back through `nodes`. */
  ghost predicate Follows(node: map<NodeId, Node>, forward: map<NodeId, Node>, retained: map<ValueId, ValueId>,
                          first: Grads, grad: Grads, nodes: seq<Node>) {
    forall kernels: Kernels, env: Env :: Consistent(kernels, node, forward, retained, env) ==>
      forall v: ValueId :: GradOf(env, grad, v) == Backward(env, nodes, Gradients(env, first), v)
  }

  lemma NothingFollows(node: map<NodeId, Node>, forward: map<NodeId, Node>, retained: map<ValueId, ValueId>,
                       grad: Grads)
    ensures Follows(node, forward, retained, grad, grad, [])
  {
  }

  /** A node that runs has operands fit for its gradient. */
  lemma RunsFit(kernels: Kernels, env: Env, n: Node)
    requires Holds(kernels, n, env) && Fits(n) && Differentiable(n.op)
    ensures Operand(env, n)
  {
    assert Vals(env, n.outputs) == Apply(kernels, n.op, Vals(env, n.inputs));
  }

  lemma FollowsStep(node: map<NodeId, Node>, node': map<NodeId, Node>, forward: map<NodeId, Node>,
                    retained: map<ValueId, ValueId>, retained': map<ValueId, ValueId>,
                    first: Grads, grad: Grads, grad': Grads, nodes: seq<Node>, id: NodeId)
    requires id in forward && Fits(forward[id]) && Differentiable(forward[id].op)
    requires Follows(node, forward, retained, first, grad, nodes)
    requires Grown(node, retained, node', retained') && Step(node', forward, retained', grad, grad', forward[id])
    ensures Follows(node', forward, retained', first, grad', nodes + [forward[id]])
  {
    hide Grown, Consistent, GradOf, Operand, Contribution, Backward, Gradients;
    var n := forward[id];
    forall kernels: Kernels, env: Env | Consistent(kernels, node', forward, retained', env)
      ensures forall v: ValueId :: GradOf(env, grad', v) == Backward(env, nodes + [n], Gradients(env, first), v)
    {
      ConsistentEarlier(kernels, node, retained, node', retained', forward, env);
      ConsistentSolves(kernels, node', forward, retained', env);
      RunsFit(kernels, env, n);
      assert Accumulated(env, grad, grad', n);
      forall v: ValueId ensures GradOf(env, grad', v) == Backward(env, nodes + [n], Gradients(env, first), v) {
        BackwardMore(env, nodes, n, Gradients(env, first), v);
      }
    }
  }

  /** Nodes without a gradient function, or whose output has no gradient, change nothing. */
  lemma FollowsSkip(node: map<NodeId, Node>, forward: map<NodeId, Node>, retained: map<ValueId, ValueId>,
                    first: Grads, grad: Grads, nodes: seq<Node>, n: Node)
    requires Fits(n) && (Differentiable(n.op) ==> n.outputs[0] !in grad)
    requires Follows(node, forward, retained, first, grad, nodes)
    ensures Follows(node, forward, retained, first, grad, nodes + [n])
  {
    hide Consistent, Backward, Gradients, Contribution;
    forall kernels: Kernels, env: Env | Consistent(kernels, node, forward, retained, env)
      ensures forall v: ValueId :: GradOf(env, grad, v) == Backward(env, nodes + [n], Gradients(env, first), v)
    {
      forall v: ValueId ensures GradOf(env, grad, v) == Backward(env, nodes + [n], Gradients(env, first), v) {
        BackwardMore(env, nodes, n, Gradients(env, first), v);
        if Operand(env, n) {
          assert GradOf(env, grad, n.outputs[0]) == 0.0;
          ZeroContribution(env, n, v);
        }
      }
    }
  }

  lemma ZeroContribution(env: Env, n: Node, v: ValueId)
    requires Operand(env, n)
    ensures Contribution(env, n, 0.0, v) == 0.0
  {
  }

  /** For every run and all tangents: what the seeds at `ys` make of the tangents of `ys` is what
      the gradients at `xs` make of the tangents of `xs`. */
  ghost predicate IsAdjoint(node: map<NodeId, Node>, g: Snapshot, retained: map<ValueId, ValueId>,
                            first: Grads, grad: Grads, xs: seq<ValueId>, ys: seq<ValueId>) {
    forall kernels: Kernels, env: Env, tan: ValueId -> Number ::
      Consistent(kernels, node, g.node, retained, env) && Tangents(g, xs, env, tan) ==>
        Inner(ys, Gradients(env, first), tan) == Inner(xs, Gradients(env, grad), tan)
  }

  lemma FollowsIsAdjoint(g: Snapshot, inputs: seq<ValueId>, xs: seq<ValueId>, ys: seq<ValueId>, order: seq<NodeId>,
                         needed: set<NodeId>, ids: seq<NodeId>, node: map<NodeId, Node>,
                         retained: map<ValueId, ValueId>, first: Grads, grad: Grads, bound: nat)
    requires g.DefUse() && g.Ssa() && GoodInputs(g, inputs) && Topological(g, inputs, order)
    requires Chosen(g, xs, ys, needed, ids) && forall n :: n in g.node ==> n in order
    requires Distinct(ys) && NodesBelow(g.node, bound) && AllIn(xs, bound) && AllIn(ys, bound)
    requires first.Keys == SetOf(ys) && Follows(node, g.node, retained, first, grad, NodesOf(g, ids))
    ensures Independent(g, xs) ==> IsAdjoint(node, g, retained, first, grad, xs, ys)
  {
    hide Consistent, Tangents, Backward, Reachable, Topological, GoodInputs, g.DefUse, g.Ssa, Inner, Independent;
    hide ReadLater, Scheduler.Sufficient;
    if Independent(g, xs) {
      forall kernels: Kernels, env: Env, tan: ValueId -> Number
        | Consistent(kernels, node, g.node, retained, env) && Tangents(g, xs, env, tan)
        ensures Inner(ys, Gradients(env, first), tan) == Inner(xs, Gradients(env, grad), tan)
      {
        var seed := Gradients(env, first);
        ChosenIsAdjoint(g, inputs, xs, ys, order, needed, ids, env, seed, tan, bound);
        InnerEqual(xs, (v: ValueId) => Backward(env, NodesOf(g, ids), seed, v), Gradients(env, grad), tan);
      }
    }
  }

  lemma InnerEqual(vs: seq<ValueId>, a: ValueId -> real, b: ValueId -> real, tan: ValueId -> Number)
    requires forall v: ValueId :: a(v) == b(v)
    ensures Inner(vs, a, tan) == Inner(vs, b, tan)
  {
    OverEqual(vs, (v: ValueId) => a(v) * tan(v).du, (v: ValueId) => b(v) * tan(v).du);
  }

  ghost predicate Fitting(g: Snapshot) {
    forall n :: n in g.node ==> Fits(g.node[n])
  }

  lemma ChosenFits(g: Snapshot, ids: seq<NodeId>, k: nat)
    requires Fitting(g) && ReadLater(g, Reversed(ids)) && k < |ids|
    ensures ids[k] in g.node && Fits(g.node[ids[k]])
    ensures Differentiable(g.node[ids[k]].op) ==> g.node[ids[k]].outputs[0] !in g.node[ids[k]].inputs
  {
    var back := Reversed(ids);
    assert back[|ids| - 1 - k] == ids[k];
    assert Unread(g, ids[k], ids[k]);
  }

  /** The nodes to go through, last first. */
  method NecessaryNodes(g: Snapshot, inputs: seq<ValueId>, nodes: seq<NodeId>, xs: seq<ValueId>, ys: seq<ValueId>)
    returns (ids: seq<NodeId>, ghost order: seq<NodeId>, ghost needed: set<NodeId>)
    requires Complete(g, inputs) && SetOf(nodes) == g.node.Keys
    ensures Topological(g, inputs, order) && forall n :: n in g.node ==> n in order
    ensures Chosen(g, xs, ys, needed, ids)
  {
    var counts := Scheduler.GetNecessaryNodesAndInputCounts(g, ys);
    needed := counts.Keys;
    var nodeSet := FilterOutUnnecessaryNode(g, xs, counts);
    assert forall n :: n in nodes <==> n in SetOf(nodes);
    var sorted := Topology.SortTopologically(g, nodes, inputs);
    order := sorted;
    ids := ReverseOfNecessary(g, inputs, sorted, nodeSet);
  }

  /** Some node of `ids` reads `v`. */
  ghost predicate ReadBy(g: Snapshot, ids: seq<NodeId>, v: ValueId) {
    exists n :: n in ids && n in g.node && v in g.node[n].inputs
  }

  /** In two-graph mode, and only then, what nodes of `ids` read may have been retained. */
  ghost predicate RetainedByAll(g: Snapshot, before: map<ValueId, ValueId>, after: map<ValueId, ValueId>,
                                twoGraphs: bool, ids: seq<NodeId>) {
    forall v :: v in after && v !in before ==> twoGraphs && ReadBy(g, ids, v)
  }

  lemma RetainedStep(g: Snapshot, before: map<ValueId, ValueId>, between: map<ValueId, ValueId>,
                     after: map<ValueId, ValueId>, twoGraphs: bool, ids: seq<NodeId>, n: NodeId)
    requires RetainedByAll(g, before, between, twoGraphs, ids) && n in g.node
    requires RetainedFor(between, after, twoGraphs, g.node[n]) || after == between
    ensures RetainedByAll(g, before, after, twoGraphs, ids + [n])
  {
    forall v | v in after && v !in before ensures twoGraphs && ReadBy(g, ids + [n], v) {
      if v in between {
        assert ReadBy(g, ids, v);
        var m :| m in ids && m in g.node && v in g.node[m].inputs;
        assert m in ids + [n];
      } else {
        assert v in SetOf(g.node[n].inputs) && n in ids + [n];
      }
    }
  }

  /** A node hands gradients back when its output has one. */
  ghost predicate HandsBack(n: Node, keys: set<ValueId>) {
    Differentiable(n.op) && n.outputs != [] && n.outputs[0] in keys
  }

  /** The values with gradients after going back through `nodes`. */
  ghost function Touched(nodes: seq<Node>, keys: set<ValueId>): set<ValueId>
    decreases |nodes|
  {
    if nodes == [] then keys else
      var before := Touched(nodes[..|nodes| - 1], keys);
      if HandsBack(nodes[|nodes| - 1], before) then before + SetOf(nodes[|nodes| - 1].inputs) else before
  }

  lemma TouchedNext(nodes: seq<Node>, keys: set<ValueId>, n: Node)
    ensures Touched(nodes + [n], keys)
      == if HandsBack(n, Touched(nodes, keys)) then Touched(nodes, keys) + SetOf(n.inputs) else Touched(nodes, keys)
  {
    assert (nodes + [n])[..|nodes|] == nodes;
  }

  /** The first `k` nodes of `ids` have been gone through. */
  ghost predicate Gone(gc: GradientContext, node: map<NodeId, Node>, retained: map<ValueId, ValueId>, first: Grads,
                       ids: seq<NodeId>)
    reads gc`grad, gc`retained, gc.graph
    requires forall n :: n in ids ==> n in gc.g.node
  {
    && gc.Ok() && Grown(node, retained, gc.graph.node, gc.retained)
    && Follows(gc.graph.node, gc.g.node, gc.retained, first, gc.grad, NodesOf(gc.g, ids))
    && RetainedByAll(gc.g, retained, gc.retained, gc.twoGraphs, ids)
    && gc.grad.Keys == Touched(NodesOf(gc.g, ids), first.Keys)
  }

  /** One node more. */
  method GoOn(gc: GradientContext, ghost node: map<NodeId, Node>, ghost retained: map<ValueId, ValueId>,
              ghost first: Grads, ghost ids: seq<NodeId>, n: NodeId)
    requires forall m :: m in ids + [n] ==> m in gc.g.node
    requires Gone(gc, node, retained, first, ids) && Fits(gc.g.node[n])
    requires Differentiable(gc.g.node[n].op) ==> gc.g.node[n].outputs[0] !in gc.g.node[n].inputs
    modifies gc`grad, gc`retained, gc.graph
    ensures Gone(gc, node, retained, first, ids + [n])
  {
    hide NodesBelow, AllWithin, Newer, AllSound, Placeholders, Grown, Follows, Step, RetainedByAll, RetainedFor, DefUse,
      Written, Below;
    ghost var node1, retained1, grad1 := gc.graph.node, gc.retained, gc.grad;
    assert NodesOf(gc.g, ids + [n]) == NodesOf(gc.g, ids) + [gc.g.node[n]];
    assert n in ids + [n];
    assert Has(gc.g.node, gc.g.node[n]);
    TouchedNext(NodesOf(gc.g, ids), first.Keys, gc.g.node[n]);
    var ok := gc.AddGradientForNode(gc.g.node[n]);
    if ok && Differentiable(gc.g.node[n].op) {
      FollowsStep(node1, gc.graph.node, gc.g.node, retained1, gc.retained, first, grad1, gc.grad, NodesOf(gc.g, ids),
                  n);
      GrownTrans(node, retained, node1, retained1, gc.graph.node, gc.retained);
    } else {
      FollowsSkip(gc.graph.node, gc.g.node, gc.retained, first, gc.grad, NodesOf(gc.g, ids), gc.g.node[n]);
    }
    RetainedStep(gc.g, retained, retained1, gc.retained, gc.twoGraphs, ids, n);
  }

  method Propagate(gc: GradientContext, ids: seq<NodeId>)
    requires gc.Ok() && Fitting(gc.g) && ReadLater(gc.g, Reversed(ids)) && forall n :: n in ids ==> n in gc.g.node
    modifies gc`grad, gc`retained, gc.graph
    ensures Gone(gc, old(gc.graph.node), old(gc.retained), old(gc.grad), ids)
  {
    hide NodesBelow, AllWithin, Newer, AllSound, Placeholders, Follows, Step, RetainedFor, DefUse, Written, Below,
      Fitting, ReadLater;
    var k := 0;
    NothingFollows(gc.graph.node, gc.g.node, gc.retained, gc.grad);
    assert NodesOf(gc.g, ids[..0]) == [];
    while k < |ids|
      modifies gc`grad, gc`retained, gc.graph
      invariant 0 <= k <= |ids|
      invariant Gone(gc, old(gc.graph.node), old(gc.retained), old(gc.grad), ids[..k])
    {
      assert ids[..k + 1] == ids[..k] + [ids[k]];
      ChosenFits(gc.g, ids, k);
      GoOn(gc, old(gc.graph.node), old(gc.retained), old(gc.grad), ids[..k], ids[k]);
      k := k + 1;
    }
    assert ids[..k] == ids;
  }

  /** GenerateGradientNodes: adds the nodes that compute the gradients of `xs`. */
  method GenerateGradientNodes(gc: GradientContext, inputs: seq<ValueId>, nodes: seq<NodeId>,
                               xs: seq<ValueId>, ys: seq<ValueId>)
    returns (ghost ids: seq<NodeId>, ghost needed: set<NodeId>)
    requires gc.Ok() && Complete(gc.g, inputs) && SetOf(nodes) == gc.g.node.Keys && Fitting(gc.g)
    requires Distinct(ys) && AllIn(xs, gc.graph.nextValue) && AllIn(ys, gc.graph.nextValue) && gc.grad.Keys == SetOf(ys)
    modifies gc`grad, gc`retained, gc.graph
    ensures Chosen(gc.g, xs, ys, needed, ids) && forall n :: n in ids ==> n in gc.g.node
    ensures Gone(gc, old(gc.graph.node), old(gc.retained), old(gc.grad), ids)
    ensures Independent(gc.g, xs) ==> IsAdjoint(gc.graph.node, gc.g, gc.retained, old(gc.grad), gc.grad, xs, ys)
  {
    hide NodesBelow, AllWithin, Newer, AllSound, Placeholders, Follows, Grown, DefUse, Written, Below, Fitting,
      ReadLater, GoodInputs;
    hide Topological, Independent, IsAdjoint, RetainedByAll, Reachable, Closed;
    ghost var order, bound;
    var chosen;
    bound := gc.graph.nextValue;
    chosen, order, needed := NecessaryNodes(gc.g, inputs, nodes, xs, ys);
    ids := chosen;
    Propagate(gc, chosen);
    FollowsIsAdjoint(gc.g, inputs, xs, ys, order, needed, ids, gc.graph.node, gc.retained, old(gc.grad), gc.grad,
                     bound);
  }
}
