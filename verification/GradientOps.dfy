/** compiler/gradient_ops.cc: the gradient functions of the elementwise operators, and the
    context through which they add nodes and accumulate gradients. */
module GradientOps {
  import opened Ir
  import opened GraphIr
  import opened Builder
  import opened Dual

  /** `grad_` of the forward values. */
  type Grads = map<ValueId, ValueId>

  /** The gradient of `v` in a run; nothing recorded counts as zero. */
  ghost function GradOf(env: Env, grad: Grads, v: ValueId): real {
    if v in grad then RealOf(env(grad[v])) else 0.0
  }

  /** A run of the forward graph and of the graph with the gradient nodes, in which every
      placeholder of a retained value holds that value. */
  ghost predicate Consistent(kernels: Kernels, node: map<NodeId, Node>, forward: map<NodeId, Node>,
                             retained: map<ValueId, ValueId>, env: Env) {
    && Solves(kernels, node, env)
    && Solves(kernels, forward, env)
    && (forall v :: v in retained ==> env(retained[v]) == env(v))
  }

  /** Later graphs have all the nodes and placeholders of earlier ones. */
  ghost predicate Grown(node: map<NodeId, Node>, retained: map<ValueId, ValueId>,
                        node': map<NodeId, Node>, retained': map<ValueId, ValueId>) {
    && (forall n :: n in node ==> n in node' && node'[n] == node[n])
    && (forall v :: v in retained ==> v in retained' && retained'[v] == retained[v])
  }

  /** `r` is `v` itself, its placeholder, or a copy of the constant it holds. */
  ghost predicate Kept(g: Snapshot, node: map<NodeId, Node>, retained: map<ValueId, ValueId>, v: ValueId, r: ValueId) {
    || r == v
    || (v in retained && retained[v] == r)
    || (v in g.producer && g.producer[v] in g.node && g.node[g.producer[v]].op.Constant?
        && g.node[g.producer[v]].outputs == [v] && Has(node, Node(g.node[g.producer[v]].op, [], [r])))
  }

  /** `gx` has been added to the gradient of `x`. */
  ghost predicate Added(node: map<NodeId, Node>, before: Grads, after: Grads, x: ValueId, gx: ValueId) {
    && x in after && after == before[x := after[x]]
    && if x in before then Has(node, Node(AccumulateGrad, [before[x], gx], [after[x]])) else after[x] == gx
  }

  lemma HasGrown(node: map<NodeId, Node>, retained: map<ValueId, ValueId>, node': map<NodeId, Node>,
                 retained': map<ValueId, ValueId>, n: Node)
    requires Grown(node, retained, node', retained') && Has(node, n)
    ensures Has(node', n)
  {
  }

  lemma GrownSelf(node: map<NodeId, Node>, retained: map<ValueId, ValueId>)
    ensures Grown(node, retained, node, retained)
  {
  }

  lemma GrownIsWithin(node: map<NodeId, Node>, retained: map<ValueId, ValueId>, node': map<NodeId, Node>,
                      retained': map<ValueId, ValueId>)
    requires Grown(node, retained, node', retained')
    ensures Within(node, node')
  {
  }

  lemma KeptMeans(kernels: Kernels, g: Snapshot, node: map<NodeId, Node>, retained: map<ValueId, ValueId>, env: Env,
                  v: ValueId, r: ValueId)
    requires Consistent(kernels, node, g.node, retained, env) && Kept(g, node, retained, v, r)
    ensures env(r) == env(v)
  {
    if r != v && !(v in retained && retained[v] == r) {
      var c := g.node[g.producer[v]];
      HasMeans(kernels, node, env, Node(c.op, [], [r]));
      assert Holds(kernels, c, env);
      assert Vals(env, [r])[0] == env(r) && Vals(env, c.outputs)[0] == env(v);
    }
  }

  lemma AddedMeans(kernels: Kernels, node: map<NodeId, Node>, env: Env, before: Grads, after: Grads, x: ValueId,
                   gx: ValueId)
    requires Solves(kernels, node, env) && Added(node, before, after, x, gx)
    ensures forall v: ValueId ::
      GradOf(env, after, v) == GradOf(env, before, v) + if v == x then RealOf(env(gx)) else 0.0
  {
    if x in before {
      var n := Node(AccumulateGrad, [before[x], gx], [after[x]]);
      HasMeans(kernels, node, env, n);
      Binary(kernels, env, AccumulateGrad, before[x], gx, after[x]);
    }
  }

  function Reals(env: Env, vs: seq<ValueId>): (r: seq<real>)
    ensures |r| == |vs| && forall i :: 0 <= i < |vs| ==> r[i] == RealOf(env(vs[i]))
  {
    seq(|vs|, i requires 0 <= i < |vs| => RealOf(env(vs[i])))
  }

  /** What node `n` passes on to value `v`, over all the operands that are `v`. */
  ghost function Contribution(env: Env, n: Node, gy: real, v: ValueId): real
    requires Operand(env, n)
  {
    (if n.inputs[0] == v then Pullback(n.op, Reals(env, n.inputs), gy, 0) else 0.0)
    + (if |n.inputs| == 2 && n.inputs[1] == v then Pullback(n.op, Reals(env, n.inputs), gy, 1) else 0.0)
  }

  ghost predicate Operand(env: Env, n: Node) {
    Differentiable(n.op) && |n.inputs| == Arity(n.op) && |n.outputs| == 1
    && (n.op.Div? ==> RealOf(env(n.inputs[1])) != 0.0)
  }

  /** The step of reverse mode: every operand's gradient grows by what the node passes on. */
  ghost predicate Accumulated(env: Env, before: Grads, after: Grads, n: Node) {
    Operand(env, n) && forall v: ValueId ::
      GradOf(env, after, v) == GradOf(env, before, v) + Contribution(env, n, GradOf(env, before, n.outputs[0]), v)
  }

  lemma OneAdded(kernels: Kernels, node: map<NodeId, Node>, env: Env, before: Grads, after: Grads, n: Node, gx: ValueId)
    requires Solves(kernels, node, env) && Operand(env, n) && |n.inputs| == 1
    requires Added(node, before, after, n.inputs[0], gx)
    requires RealOf(env(gx)) == Pullback(n.op, Reals(env, n.inputs), GradOf(env, before, n.outputs[0]), 0)
    ensures Accumulated(env, before, after, n)
  {
    AddedMeans(kernels, node, env, before, after, n.inputs[0], gx);
  }

  lemma TwoAdded(kernels: Kernels, node: map<NodeId, Node>, env: Env, before: Grads, mid: Grads, after: Grads, n: Node,
                 gx0: ValueId, gx1: ValueId)
    requires Solves(kernels, node, env) && Operand(env, n) && |n.inputs| == 2
    requires Added(node, before, mid, n.inputs[0], gx0) && Added(node, mid, after, n.inputs[1], gx1)
    requires RealOf(env(gx0)) == Pullback(n.op, Reals(env, n.inputs), GradOf(env, before, n.outputs[0]), 0)
    requires RealOf(env(gx1)) == Pullback(n.op, Reals(env, n.inputs), GradOf(env, before, n.outputs[0]), 1)
    ensures Accumulated(env, before, after, n)
  {
    hide Added, Contribution;
    AddedMeans(kernels, node, env, before, mid, n.inputs[0], gx0);
    AddedMeans(kernels, node, env, mid, after, n.inputs[1], gx1);
    forall v: ValueId ensures GradOf(env, after, v)
      == GradOf(env, before, v) + Contribution(env, n, GradOf(env, before, n.outputs[0]), v)
    {
      ContributionIs(env, n, GradOf(env, before, n.outputs[0]), v);
    }
  }

  lemma ContributionIs(env: Env, n: Node, gy: real, v: ValueId)
    requires Operand(env, n) && |n.inputs| == 2
    ensures Contribution(env, n, gy, v)
      == (if n.inputs[0] == v then Pullback(n.op, Reals(env, n.inputs), gy, 0) else 0.0)
       + (if n.inputs[1] == v then Pullback(n.op, Reals(env, n.inputs), gy, 1) else 0.0)
  {
  }

  /** What a gradient function has to achieve, in every run of the graphs it leaves behind. */
  ghost predicate Step(node: map<NodeId, Node>, forward: map<NodeId, Node>, retained: map<ValueId, ValueId>,
                       before: Grads, after: Grads, n: Node) {
    forall kernels: Kernels, env: Env ::
      Consistent(kernels, node, forward, retained, env) && Operand(env, n) ==> Accumulated(env, before, after, n)
  }

  lemma ConsistentEarlier(kernels: Kernels, node: map<NodeId, Node>, retained: map<ValueId, ValueId>,
                          node': map<NodeId, Node>, retained': map<ValueId, ValueId>, forward: map<NodeId, Node>,
                          env: Env)
    requires Grown(node, retained, node', retained') && Consistent(kernels, node', forward, retained', env)
    ensures Consistent(kernels, node, forward, retained, env)
  {
    forall n | n in node ensures Holds(kernels, node[n], env) { assert Holds(kernels, node'[n], env); }
  }

  /** In every run `gv` is the product of `gy` and `b`. */
  ghost predicate Product(node: map<NodeId, Node>, forward: map<NodeId, Node>, retained: map<ValueId, ValueId>,
                          gy: ValueId, b: ValueId, gv: ValueId) {
    forall kernels: Kernels, env: Env :: Consistent(kernels, node, forward, retained, env) ==>
      RealOf(env(gv)) == RealOf(env(gy)) * RealOf(env(b))
  }

  ghost predicate Ratio(node: map<NodeId, Node>, forward: map<NodeId, Node>, retained: map<ValueId, ValueId>,
                           gy: ValueId, b: ValueId, gv: ValueId) {
    forall kernels: Kernels, env: Env :: Consistent(kernels, node, forward, retained, env) ==>
      RealOf(env(b)) != 0.0 && RealOf(env(gv)) == RealOf(env(gy)) / RealOf(env(b))
  }

  lemma ProductGrown(node: map<NodeId, Node>, retained: map<ValueId, ValueId>, node': map<NodeId, Node>,
                     retained': map<ValueId, ValueId>, forward: map<NodeId, Node>, gy: ValueId, b: ValueId, gv: ValueId)
    requires Grown(node, retained, node', retained')
    ensures Product(node, forward, retained, gy, b, gv) ==> Product(node', forward, retained', gy, b, gv)
    ensures Ratio(node, forward, retained, gy, b, gv) ==> Ratio(node', forward, retained', gy, b, gv)
  {
    hide Consistent, Grown;
    forall kernels: Kernels, env: Env | Consistent(kernels, node', forward, retained', env)
      ensures Consistent(kernels, node, forward, retained, env)
    {
      ConsistentEarlier(kernels, node, retained, node', retained', forward, env);
    }
  }

  lemma ProductMeans(g: Snapshot, node: map<NodeId, Node>, retained: map<ValueId, ValueId>,
                     gy: ValueId, b: ValueId, r: ValueId, gv: ValueId)
    requires Has(node, Node(Mul, [gy, r], [gv])) && Kept(g, node, retained, b, r)
    ensures Product(node, g.node, retained, gy, b, gv)
  {
    hide Kept, Consistent, Has;
    forall kernels: Kernels, env: Env | Consistent(kernels, node, g.node, retained, env)
      ensures RealOf(env(gv)) == RealOf(env(gy)) * RealOf(env(b))
    {
      ConsistentSolves(kernels, node, g.node, retained, env);
      HasMeans(kernels, node, env, Node(Mul, [gy, r], [gv]));
      Binary(kernels, env, Mul, gy, r, gv);
      KeptMeans(kernels, g, node, retained, env, b, r);
    }
  }

  lemma ConsistentSolves(kernels: Kernels, node: map<NodeId, Node>, forward: map<NodeId, Node>,
                         retained: map<ValueId, ValueId>, env: Env)
    requires Consistent(kernels, node, forward, retained, env)
    ensures Solves(kernels, node, env) && Solves(kernels, forward, env)
  {
  }

  lemma RatioMeans(g: Snapshot, node: map<NodeId, Node>, retained: map<ValueId, ValueId>,
                      gy: ValueId, b: ValueId, r: ValueId, gv: ValueId)
    requires Has(node, Node(Div, [gy, r], [gv])) && Kept(g, node, retained, b, r)
    ensures Ratio(node, g.node, retained, gy, b, gv)
  {
    hide Kept, Consistent, Has;
    forall kernels: Kernels, env: Env | Consistent(kernels, node, g.node, retained, env)
      ensures RealOf(env(b)) != 0.0 && RealOf(env(gv)) == RealOf(env(gy)) / RealOf(env(b))
    {
      ConsistentSolves(kernels, node, g.node, retained, env);
      HasMeans(kernels, node, env, Node(Div, [gy, r], [gv]));
      Binary(kernels, env, Div, gy, r, gv);
      KeptMeans(kernels, g, node, retained, env, b, r);
    }
  }

  /** Reducing to an equal shape changes nothing. */
  lemma SumToMeans(g: Snapshot, node: map<NodeId, Node>, retained: map<ValueId, ValueId>,
                   gy: ValueId, b: ValueId, mul: ValueId, shape: ValueId, gv: ValueId)
    requires Product(node, g.node, retained, gy, b, mul) && Has(node, Node(ReduceSumTo, [mul, shape], [gv]))
    ensures Product(node, g.node, retained, gy, b, gv)
  {
    hide Consistent, Has;
    forall kernels: Kernels, env: Env | Consistent(kernels, node, g.node, retained, env)
      ensures RealOf(env(gv)) == RealOf(env(gy)) * RealOf(env(b))
    {
      ConsistentSolves(kernels, node, g.node, retained, env);
      HasMeans(kernels, node, env, Node(ReduceSumTo, [mul, shape], [gv]));
      Binary(kernels, env, ReduceSumTo, mul, shape, gv);
    }
  }

  /** `gx` is a value reduced to the shape of operand `x`, read where it is kept. */
  ghost predicate ReducedAs(g: Snapshot, node: map<NodeId, Node>, retained: map<ValueId, ValueId>, x: ValueId,
                            gx: ValueId) {
    exists v, r, shape :: Kept(g, node, retained, x, r) && Has(node, Node(Shape, [r], [shape]))
      && Has(node, Node(ReduceSumTo, [v, shape], [gx]))
  }

  lemma ReducedNow(g: Snapshot, node: map<NodeId, Node>, retained: map<ValueId, ValueId>, x: ValueId, gx: ValueId,
                   v: ValueId, r: ValueId, shape: ValueId)
    requires Kept(g, node, retained, x, r) && Has(node, Node(Shape, [r], [shape]))
    requires Has(node, Node(ReduceSumTo, [v, shape], [gx]))
    ensures ReducedAs(g, node, retained, x, gx)
  {
    hide Kept, Has;
  }

  lemma ReducedGrown(g: Snapshot, node: map<NodeId, Node>, retained: map<ValueId, ValueId>, node': map<NodeId, Node>,
                     retained': map<ValueId, ValueId>, x: ValueId, gx: ValueId)
    requires Grown(node, retained, node', retained') && ReducedAs(g, node, retained, x, gx)
    ensures ReducedAs(g, node', retained', x, gx)
  {
    hide Kept, Has, Grown;
    var v, r, shape :| Kept(g, node, retained, x, r) && Has(node, Node(Shape, [r], [shape]))
      && Has(node, Node(ReduceSumTo, [v, shape], [gx]));
    KeptGrown(g, node, retained, node', retained', x, r);
    HasGrown(node, retained, node', retained', Node(Shape, [r], [shape]));
    HasGrown(node, retained, node', retained', Node(ReduceSumTo, [v, shape], [gx]));
    ReducedNow(g, node', retained', x, gx, v, r, shape);
  }

  /** Both operands have received a gradient that is reduced to their shape. */
  ghost predicate BothReduced(g: Snapshot, node: map<NodeId, Node>, retained: map<ValueId, ValueId>, before: Grads,
                              after: Grads, n: Node)
    requires |n.inputs| == 2
  {
    exists mid: Grads, gx0: ValueId, gx1: ValueId ::
      && Added(node, before, mid, n.inputs[0], gx0) && ReducedAs(g, node, retained, n.inputs[0], gx0)
      && Added(node, mid, after, n.inputs[1], gx1) && ReducedAs(g, node, retained, n.inputs[1], gx1)
  }

  /** In every run `gx` is what node `n` passes on to operand `i`. */
  ghost predicate Gives(node: map<NodeId, Node>, forward: map<NodeId, Node>, retained: map<ValueId, ValueId>,
                        before: Grads, n: Node, i: nat, gx: ValueId)
    requires i < |n.inputs|
  {
    forall kernels: Kernels, env: Env ::
      Consistent(kernels, node, forward, retained, env) && Operand(env, n) ==>
        RealOf(env(gx)) == Pullback(n.op, Reals(env, n.inputs), GradOf(env, before, n.outputs[0]), i)
  }

  lemma StepOne(node: map<NodeId, Node>, forward: map<NodeId, Node>, retained: map<ValueId, ValueId>,
                before: Grads, after: Grads, n: Node, gx: ValueId)
    requires |n.inputs| == 1 && Added(node, before, after, n.inputs[0], gx)
    requires Gives(node, forward, retained, before, n, 0, gx)
    ensures Step(node, forward, retained, before, after, n) && after.Keys == before.Keys + SetOf(n.inputs)
  {
    assert SetOf(n.inputs) == {n.inputs[0]};
    forall kernels: Kernels, env: Env | Consistent(kernels, node, forward, retained, env) && Operand(env, n)
      ensures Accumulated(env, before, after, n)
    {
      OneAdded(kernels, node, env, before, after, n, gx);
    }
  }

  lemma StepTwo(node: map<NodeId, Node>, forward: map<NodeId, Node>, retained: map<ValueId, ValueId>,
                before: Grads, mid: Grads, after: Grads, n: Node, gx0: ValueId, gx1: ValueId)
    requires |n.inputs| == 2
    requires Added(node, before, mid, n.inputs[0], gx0) && Added(node, mid, after, n.inputs[1], gx1)
    requires Gives(node, forward, retained, before, n, 0, gx0) && Gives(node, forward, retained, before, n, 1, gx1)
    ensures Step(node, forward, retained, before, after, n) && after.Keys == before.Keys + SetOf(n.inputs)
  {
    assert SetOf(n.inputs) == {n.inputs[0], n.inputs[1]};
    forall kernels: Kernels, env: Env | Consistent(kernels, node, forward, retained, env) && Operand(env, n)
      ensures Accumulated(env, before, after, n)
    {
      TwoAdded(kernels, node, env, before, mid, after, n, gx0, gx1);
    }
  }

  /** Add, Sub and Identity pass the gradient on; the gradient may also be negated. */
  lemma PassGives(node: map<NodeId, Node>, forward: map<NodeId, Node>, retained: map<ValueId, ValueId>,
                  before: Grads, n: Node, i: nat)
    requires i < |n.inputs| && |n.outputs| == 1 && n.outputs[0] in before
    requires n.op.Add? || (n.op.Sub? && i == 0)
    ensures Gives(node, forward, retained, before, n, i, before[n.outputs[0]])
  {
    hide Consistent;
  }

  lemma NegGives(node: map<NodeId, Node>, forward: map<NodeId, Node>, retained: map<ValueId, ValueId>,
                 before: Grads, n: Node, i: nat, gx: ValueId)
    requires i < |n.inputs| && |n.outputs| == 1 && n.outputs[0] in before
    requires (n.op.Sub? && i == 1) || n.op.Neg? || n.op.Identity?
    requires Has(node, Node(if n.op.Identity? then Identity else Neg, [before[n.outputs[0]]], [gx]))
    ensures Gives(node, forward, retained, before, n, i, gx)
  {
    hide Has;
    var gy := before[n.outputs[0]];
    var op := if n.op.Identity? then Identity else Neg;
    forall kernels: Kernels, env: Env | Consistent(kernels, node, forward, retained, env) && Operand(env, n)
      ensures RealOf(env(gx)) == Pullback(n.op, Reals(env, n.inputs), GradOf(env, before, n.outputs[0]), i)
    {
      HasMeans(kernels, node, env, Node(op, [gy], [gx]));
      Unary(kernels, env, op, gy, gx);
    }
  }

  lemma MulGives(node: map<NodeId, Node>, forward: map<NodeId, Node>, retained: map<ValueId, ValueId>,
                 before: Grads, n: Node, i: nat, gx: ValueId)
    requires n.op.Mul? && i < |n.inputs| == 2 && |n.outputs| == 1 && n.outputs[0] in before
    requires Product(node, forward, retained, before[n.outputs[0]], n.inputs[1 - i], gx)
    ensures Gives(node, forward, retained, before, n, i, gx)
  {
    hide Consistent;
  }

  lemma SquareGives(node: map<NodeId, Node>, forward: map<NodeId, Node>, retained: map<ValueId, ValueId>,
                    before: Grads, n: Node, mul: ValueId, gx: ValueId)
    requires n.op.Square? && |n.inputs| == 1 && |n.outputs| == 1 && n.outputs[0] in before
    requires Product(node, forward, retained, before[n.outputs[0]], n.inputs[0], mul)
    requires Has(node, Node(Add, [mul, mul], [gx]))
    ensures Gives(node, forward, retained, before, n, 0, gx)
  {
    hide Has;
    forall kernels: Kernels, env: Env | Consistent(kernels, node, forward, retained, env) && Operand(env, n)
      ensures RealOf(env(gx)) == Pullback(n.op, Reals(env, n.inputs), GradOf(env, before, n.outputs[0]), 0)
    {
      HasMeans(kernels, node, env, Node(Add, [mul, mul], [gx]));
      Binary(kernels, env, Add, mul, mul, gx);
    }
  }

  lemma DivGivesFirst(node: map<NodeId, Node>, forward: map<NodeId, Node>, retained: map<ValueId, ValueId>,
                      before: Grads, n: Node, gx: ValueId)
    requires n.op.Div? && |n.inputs| == 2 && |n.outputs| == 1 && n.outputs[0] in before
    requires Ratio(node, forward, retained, before[n.outputs[0]], n.inputs[1], gx)
    ensures Gives(node, forward, retained, before, n, 0, gx)
  {
    hide Consistent;
  }

  ghost predicate Negation(node: map<NodeId, Node>, forward: map<NodeId, Node>, retained: map<ValueId, ValueId>,
                           gy: ValueId, gv: ValueId) {
    forall kernels: Kernels, env: Env :: Consistent(kernels, node, forward, retained, env) ==>
      RealOf(env(gv)) == -RealOf(env(gy))
  }

  lemma NegIsNegation(node: map<NodeId, Node>, forward: map<NodeId, Node>, retained: map<ValueId, ValueId>,
                      gy: ValueId, gv: ValueId)
    requires Has(node, Node(Neg, [gy], [gv]))
    ensures Negation(node, forward, retained, gy, gv)
  {
    hide Has, Consistent, Holds;
    forall kernels: Kernels, env: Env | Consistent(kernels, node, forward, retained, env)
      ensures RealOf(env(gv)) == -RealOf(env(gy))
    {
      ConsistentSolves(kernels, node, forward, retained, env);
      HasMeans(kernels, node, env, Node(Neg, [gy], [gv]));
      Unary(kernels, env, Neg, gy, gv);
    }
  }

  lemma DivGivesSecond(node: map<NodeId, Node>, forward: map<NodeId, Node>, retained: map<ValueId, ValueId>,
                       before: Grads, n: Node, gx0: ValueId, t0: ValueId, t1: ValueId, gx: ValueId)
    requires n.op.Div? && |n.inputs| == 2 && |n.outputs| == 1 && n.outputs[0] in before
    requires Ratio(node, forward, retained, before[n.outputs[0]], n.inputs[1], gx0)
    requires Has(node, Node(Neg, [gx0], [t0]))
    requires Product(node, forward, retained, t0, n.inputs[0], t1)
    requires Ratio(node, forward, retained, t1, n.inputs[1], gx)
    ensures Gives(node, forward, retained, before, n, 1, gx)
  {
    hide Has, Consistent, RealOf;
    NegIsNegation(node, forward, retained, gx0, t0);
  }

  /** Nodes that were not there at `first` write one value each, newer than all they read, and
      read no value from before `border`. */
  ghost predicate Newer(first: map<NodeId, Node>, node: map<NodeId, Node>, base: ValueId, border: ValueId) {
    forall id :: id in node && id !in first ==>
      |node[id].outputs| == 1 && node[id].outputs[0] >= base
      && forall i :: i in node[id].inputs ==> border <= i < node[id].outputs[0]
  }

  lemma NewerAnyway(first: map<NodeId, Node>, node: map<NodeId, Node>, base: ValueId, border: ValueId)
    requires Newer(first, node, base, border)
    ensures Newer(first, node, base, 0)
  {
  }

  /** `v` is a divisor in the forward graph. */
  ghost predicate Divisor(g: Snapshot, v: ValueId) {
    exists n :: n in g.node && g.node[n].op.Div? && |g.node[n].inputs| == 2 && g.node[n].inputs[1] == v
      && g.node[n].outputs != []
  }

  /** `r` stands for a value that the forward graph divides by. */
  ghost predicate DividesBy(g: Snapshot, node: map<NodeId, Node>, retained: map<ValueId, ValueId>, r: ValueId) {
    exists v :: Divisor(g, v) && Kept(g, node, retained, v, r)
  }

  /** The operator fits its operands, and divides by nothing but what the forward graph divides by. */
  ghost predicate Sound(g: Snapshot, node: map<NodeId, Node>, retained: map<ValueId, ValueId>, op: Op,
                        inputs: seq<ValueId>) {
    match op
    case Add | Mul | AccumulateGrad | ReduceSumTo => |inputs| == 2
    case Div => |inputs| == 2 && DividesBy(g, node, retained, inputs[1])
    case Neg | Identity | Shape => |inputs| == 1
    case Constant(c) => true
    case SequenceConstruct => true
    case _ => false
  }

  ghost predicate AllSound(g: Snapshot, first: map<NodeId, Node>, node: map<NodeId, Node>,
                           retained: map<ValueId, ValueId>) {
    forall id :: id in node && id !in first ==> Sound(g, node, retained, node[id].op, node[id].inputs)
  }

  lemma SoundGrown(g: Snapshot, node: map<NodeId, Node>, retained: map<ValueId, ValueId>, node': map<NodeId, Node>,
                   retained': map<ValueId, ValueId>, op: Op, inputs: seq<ValueId>)
    requires Grown(node, retained, node', retained') && Sound(g, node, retained, op, inputs)
    ensures Sound(g, node', retained', op, inputs)
  {
    hide Grown, Kept, Divisor;
    if op.Div? {
      var v :| Divisor(g, v) && Kept(g, node, retained, v, inputs[1]);
      KeptGrown(g, node, retained, node', retained', v, inputs[1]);
    }
  }

  lemma AllSoundMore(g: Snapshot, first: map<NodeId, Node>, node: map<NodeId, Node>, retained: map<ValueId, ValueId>,
                     n: NodeId, added: Node)
    requires AllSound(g, first, node, retained) && n !in node && Sound(g, node, retained, added.op, added.inputs)
    ensures AllSound(g, first, node[n := added], retained)
  {
    hide Sound;
    assert Grown(node, retained, node[n := added], retained);
    hide Grown;
    forall id | id in node[n := added] && id !in first
      ensures Sound(g, node[n := added], retained, node[n := added][id].op, node[n := added][id].inputs)
    {
      SoundGrown(g, node, retained, node[n := added], retained, node[n := added][id].op, node[n := added][id].inputs);
    }
  }

  lemma ConstantIsSound(g: Snapshot, node: map<NodeId, Node>, retained: map<ValueId, ValueId>, op: Op)
    requires op.Constant?
    ensures Sound(g, node, retained, op, [])
  {
  }

  lemma ConstantIsKept(g: Snapshot, node: map<NodeId, Node>, retained: map<ValueId, ValueId>, v: ValueId, r: ValueId)
    requires v in g.producer && g.producer[v] in g.node && g.node[g.producer[v]].op.Constant?
    requires g.node[g.producer[v]].outputs == [v] && Has(node, Node(g.node[g.producer[v]].op, [], [r]))
    ensures Kept(g, node, retained, v, r)
  {
  }

  lemma IsConstantNow(g: Snapshot, v: ValueId)
    requires v in g.producer ==> g.producer[v] in g.node
    ensures IsConstant(g.node, g.producer, v)
      <==> v in g.producer && g.node[g.producer[v]].op.Constant? && g.node[g.producer[v]].outputs == [v]
  {
  }

  lemma NoneConstantMore(g: Snapshot, vs: set<ValueId>, v: ValueId)
    requires g.Ssa() && NoneConstant(g.node, vs) && !IsConstant(g.node, g.producer, v)
    ensures NoneConstant(g.node, vs + {v})
  {
    forall c | c in g.node && g.node[c].op.Constant? && |g.node[c].outputs| == 1
      ensures g.node[c].outputs[0] !in vs + {v}
    {
      assert g.producer[g.node[c].outputs[0]] == c;
    }
  }

  lemma AllSoundRetained(g: Snapshot, first: map<NodeId, Node>, node: map<NodeId, Node>,
                         retained: map<ValueId, ValueId>, v: ValueId, r: ValueId)
    requires AllSound(g, first, node, retained) && v !in retained
    ensures AllSound(g, first, node, retained[v := r])
  {
    hide Sound;
    assert Grown(node, retained, node, retained[v := r]);
    hide Grown;
    forall id | id in node && id !in first ensures Sound(g, node, retained[v := r], node[id].op, node[id].inputs) {
      SoundGrown(g, node, retained, node, retained[v := r], node[id].op, node[id].inputs);
    }
  }

  /** Placeholders differ and are written by no node yet. */
  ghost predicate Placeholders(retained: map<ValueId, ValueId>, producer: map<ValueId, NodeId>) {
    && (forall v :: v in retained ==> retained[v] !in producer)
    && (forall v, w :: v in retained && w in retained && retained[v] == retained[w] ==> v == w)
  }


  lemma PlaceholderAdded(retained: map<ValueId, ValueId>, producer: map<ValueId, NodeId>, border: ValueId,
                         base: ValueId, bound: nat, v: ValueId, r: ValueId)
    requires AllWithin(retained, border, bound) && Placeholders(retained, producer) && border <= base <= r < bound
    requires v !in retained && r !in producer && r !in retained.Values
    ensures AllWithin(retained[v := r], border, bound) && Placeholders(retained[v := r], producer)
  {
    assert forall w :: w in retained ==> retained[w] in retained.Values;
  }
  ghost predicate AllWithin(vs: map<ValueId, ValueId>, border: ValueId, bound: nat) {
    forall v :: v in vs ==> border <= vs[v] < bound
  }

  ghost predicate NodesBelow(node: map<NodeId, Node>, bound: nat) {
    forall n :: n in node ==> BelowNode(node[n], bound)
  }

  lemma GrownTrans(node0: map<NodeId, Node>, retained0: map<ValueId, ValueId>, node1: map<NodeId, Node>,
                   retained1: map<ValueId, ValueId>, node2: map<NodeId, Node>, retained2: map<ValueId, ValueId>)
    requires Grown(node0, retained0, node1, retained1) && Grown(node1, retained1, node2, retained2)
    ensures Grown(node0, retained0, node2, retained2)
  {
  }

  lemma AddedGrown(node: map<NodeId, Node>, retained: map<ValueId, ValueId>, node': map<NodeId, Node>,
                   retained': map<ValueId, ValueId>, before: Grads, after: Grads, x: ValueId, gx: ValueId)
    requires Grown(node, retained, node', retained') && Added(node, before, after, x, gx)
    ensures Added(node', before, after, x, gx)
  {
  }

  lemma KeptGrown(g: Snapshot, node: map<NodeId, Node>, retained: map<ValueId, ValueId>, node': map<NodeId, Node>,
                  retained': map<ValueId, ValueId>, v: ValueId, r: ValueId)
    requires Grown(node, retained, node', retained') && Kept(g, node, retained, v, r)
    ensures Kept(g, node', retained', v, r)
  {
  }

  lemma BelowLater(vs: map<ValueId, ValueId>, node: map<NodeId, Node>, border: ValueId, bound: nat, bound': nat)
    requires AllWithin(vs, border, bound) && NodesBelow(node, bound) && bound <= bound'
    ensures AllWithin(vs, border, bound') && NodesBelow(node, bound')
  {
  }

  class GradientContext {
    const graph: Graph                       // the graph that receives the gradient nodes
    const g: Snapshot                        // the forward graph
    ghost const first: map<NodeId, Node>     // the nodes that were there before
    const base: ValueId
    const border: ValueId                    // in two-graph mode, the forward values are below
    const twoGraphs: bool                    // `retained_` is not null
    var grad: Grads
    var retained: map<ValueId, ValueId>

    ghost predicate Ok()
      reads this`grad, this`retained, graph
    {
      && graph.Valid({}) && g.Ssa()
      && NodesBelow(g.node, graph.nextValue)
      && AllWithin(grad, border, graph.nextValue) && AllWithin(retained, border, graph.nextValue)
      && Placeholders(retained, graph.producer)
      && Newer(first, graph.node, base, border) && border <= base <= graph.nextValue
      && AllSound(g, first, graph.node, retained) && (!twoGraphs ==> border == 0 && retained == map[])
      && (forall v :: v in retained ==> base <= retained[v]) && NoneConstant(g.node, retained.Keys)
    }

    constructor (graph: Graph, g: Snapshot, twoGraphs: bool, border: ValueId, grad: Grads)
      requires graph.Valid({}) && g.Ssa() && NodesBelow(g.node, graph.nextValue)
      requires border <= graph.nextValue && (!twoGraphs ==> border == 0) && AllWithin(grad, border, graph.nextValue)
      ensures this.graph == graph && this.g == g && this.twoGraphs == twoGraphs && this.border == border
      ensures this.grad == grad
      ensures base == graph.nextValue && first == graph.node && retained == map[] && Ok()
    {
      this.graph, this.g, this.twoGraphs, this.border, this.grad := graph, g, twoGraphs, border, grad;
      base, first, retained := graph.nextValue, graph.node, map[];
    }

    /** A value that gradient nodes may read. */
    predicate Mine(v: ValueId)
      reads graph`nextValue
    {
      border <= v < graph.nextValue
    }

    /** GraphBuilder::Op: a new node that writes a new value. */
    method Op(op: Op, inputs: seq<ValueId>) returns (v: ValueId)
      requires Ok() && (forall i :: i in inputs ==> Mine(i)) && Sound(g, graph.node, retained, op, inputs)
      modifies graph
      ensures Ok() && Mine(v) && graph.nextValue >= old(graph.nextValue)
      ensures Grown(old(graph.node), retained, graph.node, retained)
      ensures Has(graph.node, Node(op, inputs, [v])) && OneMore(old(graph.node), graph.node, Node(op, inputs, [v]))
      ensures v >= old(graph.nextValue)
      ensures OldWriters(old(graph.producer), graph.producer, old(graph.nextValue))
    {
      hide DefUse, Written, NodesBelow, Newer, AllSound, g.Ssa, NoneConstant;
      v := NewValue();
      Write(op, inputs, v);
    }

    /** Graph::AddValue. */
    method NewValue() returns (v: ValueId)
      requires Ok()
      modifies graph`nextValue
      ensures Ok() && v == old(graph.nextValue) && graph.nextValue == v + 1
      ensures v >= base && v !in graph.producer && v !in grad.Values && v !in retained.Values
    {
      hide DefUse, Written, NodesBelow, Newer, AllSound, Placeholders, NoneConstant;
      v := graph.AddValue({});
      BelowLater(grad, g.node, border, v, v + 1);
      BelowLater(retained, g.node, border, v, v + 1);
    }

    /** Graph::AddNode for a value that nobody writes yet. */
    method Write(op: Op, inputs: seq<ValueId>, v: ValueId)
      requires Ok() && (forall i :: i in inputs ==> border <= i < v) && Sound(g, graph.node, retained, op, inputs)
      requires base <= v < graph.nextValue && v !in graph.producer && v !in retained.Values
      modifies graph`node, graph`nodes, graph`users, graph`producer, graph`nextNode
      ensures Ok()
      ensures Grown(old(graph.node), retained, graph.node, retained)
      ensures Has(graph.node, Node(op, inputs, [v])) && OneMore(old(graph.node), graph.node, Node(op, inputs, [v]))
      ensures OldWriters(old(graph.producer), graph.producer, v)
    {
      hide DefUse, Written, AllWithin, NodesBelow, Below, AllSound, Sound, NoneConstant;
      ghost var node := graph.node;
      var n := graph.AddNode(op, inputs, [v], {});
      AllSoundMore(g, first, node, retained, n, Node(op, inputs, [v]));
      assert graph.node[n] == Node(op, inputs, [v]);
    }

    /** The values from which a forward node was made. */
    ghost predicate Forward(n: Node) {
      Has(g.node, n)
    }

    lemma ForwardBelow(n: Node)
      requires Ok() && Forward(n)
      ensures forall i :: 0 <= i < |n.inputs| ==> n.inputs[i] < graph.nextValue
    {
      assert forall i :: 0 <= i < |n.inputs| ==> n.inputs[i] in n.inputs;
    }

    lemma ForwardDivisor(n: Node)
      requires Forward(n) && n.op.Div? && |n.inputs| == 2 && n.outputs != []
      ensures Divisor(g, n.inputs[1])
    {
    }

    /** GradientOpContext::Retain. */
    method Retain(v: ValueId) returns (r: ValueId)
      requires Ok() && v < graph.nextValue
      modifies this`retained, graph
      ensures Ok() && Mine(r) && graph.nextValue >= old(graph.nextValue)
      ensures Grown(old(graph.node), old(retained), graph.node, retained)
      ensures Kept(g, graph.node, retained, v, r)
      ensures !twoGraphs ==> r == v && retained == old(retained) && graph.node == old(graph.node)
      // With two graphs a constant is copied, and any other value has one placeholder.
      ensures twoGraphs && IsConstant(g.node, g.producer, v) ==>
        retained == old(retained) && r >= old(graph.nextValue)
        && OneMore(old(graph.node), graph.node, Node(g.node[g.producer[v]].op, [], [r]))
      ensures twoGraphs && !IsConstant(g.node, g.producer, v) ==>
        graph.node == old(graph.node) && r !in graph.producer
        && retained == if v in old(retained) then old(retained) else old(retained)[v := r]
      ensures forall w :: w in retained && w !in old(retained) ==> w == v
    {
      hide *;
      GrownSelf(graph.node, retained);
      if !twoGraphs {
        KeptItself(v);
        return v;
      }
      ProducersAttached();
      IsConstantNow(g, v);
      if v in g.producer && g.node[g.producer[v]].op.Constant? && g.node[g.producer[v]].outputs == [v] {
        ConstantIsSound(g, graph.node, retained, g.node[g.producer[v]].op);
        r := Op(g.node[g.producer[v]].op, []);
        ConstantIsKept(g, graph.node, retained, v, r);
        return;
      }
      if v in retained {
        KeptRetained(v);
        NoWriter(v);
        return retained[v];
      }
      r := NewPlaceholder(v);
      KeptRetained(v);
    }

    lemma NoWriter(v: ValueId)
      requires Ok() && v in retained
      ensures retained[v] !in graph.producer
    {
    }

    lemma ProducersAttached()
      requires Ok()
      ensures forall v :: v in g.producer ==> g.producer[v] in g.node
    {
      hide DefUse, Written, Below, NodesBelow, Newer, AllSound;
    }

    lemma KeptItself(v: ValueId)
      requires Ok() && !twoGraphs && v < graph.nextValue
      ensures Mine(v) && Kept(g, graph.node, retained, v, v)
    {
      hide DefUse, Written, Below, NodesBelow, Newer, AllSound;
    }

    lemma KeptRetained(v: ValueId)
      requires Ok() && v in retained
      ensures Mine(retained[v]) && Kept(g, graph.node, retained, v, retained[v])
    {
      hide DefUse, Written, Below, NodesBelow, Newer, AllSound;
    }

    /** A value of the backward graph that will hold `v`. */
    method NewPlaceholder(v: ValueId) returns (r: ValueId)
      requires Ok() && twoGraphs && v !in retained && !IsConstant(g.node, g.producer, v)
      modifies this`retained, graph`nextValue
      ensures Ok() && retained == old(retained)[v := r] && graph.nextValue >= old(graph.nextValue)
      ensures Grown(graph.node, old(retained), graph.node, retained) && r !in graph.producer
    {
      hide DefUse, Written, Below, NodesBelow, Newer, AllSound, Sound, Has, AllWithin, Placeholders, NoneConstant,
        IsConstant, g.Ssa;
      r := NewValue();
      NoneConstantMore(g, retained.Keys, v);
      assert retained[v := r].Keys == retained.Keys + {v};
      AllSoundRetained(g, first, graph.node, retained, v, r);
      PlaceholderAdded(retained, graph.producer, border, base, graph.nextValue, v, r);
      retained := retained[v := r];
    }

    /** GradientOpContext::SetGrad. */
    method SetGrad(x: ValueId, gx: ValueId)
      requires Ok() && Mine(gx)
      modifies this`grad, graph
      ensures Ok() && graph.nextValue >= old(graph.nextValue)
      ensures Grown(old(graph.node), retained, graph.node, retained)
      ensures Added(graph.node, old(grad), grad, x, gx)
      ensures OldWriters(old(graph.producer), graph.producer, old(graph.nextValue))
    {
      hide DefUse, Written, Below, NodesBelow, Newer, AllSound, DividesBy;
      if x in grad {
        var v := Op(AccumulateGrad, [grad[x], gx]);
        grad := grad[x := v];
      } else {
        grad := grad[x := gx];
      }
    }

    /** GradientOpContext::GradOp.  The gradient is set before its node exists, so a node that
        accumulates it comes first in the list of nodes. */
    method GradOp(op: Op, x: ValueId, inputs: seq<ValueId>) returns (gv: ValueId)
      requires Ok() && (forall i :: i in inputs ==> Mine(i)) && Sound(g, graph.node, retained, op, inputs)
      modifies this`grad, graph
      ensures Ok() && Mine(gv) && graph.nextValue >= old(graph.nextValue)
      ensures Grown(old(graph.node), retained, graph.node, retained)
      ensures Added(graph.node, old(grad), grad, x, gv) && Has(graph.node, Node(op, inputs, [gv]))
    {
      hide DefUse, Written, Below, NodesBelow, Newer, AllSound, DividesBy;
      gv := NewValue();
      ghost var before := graph.node;
      SetGrad(x, gv);
      ghost var node := graph.node;
      SoundGrown(g, before, retained, node, retained, op, inputs);
      Write(op, inputs, gv);
      AddedGrown(node, retained, graph.node, retained, old(grad), grad, x, gv);
      GrownTrans(old(graph.node), retained, node, retained, graph.node, retained);
    }

    /** A forward node whose gradient is to be propagated. */
    ghost predicate Ready(n: Node)
      reads this`grad
    {
      && Forward(n) && Differentiable(n.op) && |n.inputs| == Arity(n.op) && |n.outputs| == 1
      && n.outputs[0] in grad && n.outputs[0] !in n.inputs
    }

    lemma GradBelow(n: Node)
      requires Ok() && n.outputs != [] && n.outputs[0] in grad
      ensures Mine(grad[n.outputs[0]])
    {
    }

    /** What every gradient function leaves behind. */
    ghost predicate Propagated(node: map<NodeId, Node>, retained: map<ValueId, ValueId>, grad: Grads, nextValue: nat,
                               n: Node)
      reads this`grad, this`retained, graph
    {
      && Ok() && nextValue <= graph.nextValue
      && this.grad.Keys == grad.Keys + SetOf(n.inputs)
      && Grown(node, retained, graph.node, this.retained)
      && Step(graph.node, g.node, this.retained, grad, this.grad, n)
      && RetainedFor(retained, this.retained, twoGraphs, n)
    }

    method AddGradFn(n: Node)
      requires Ok() && Ready(n) && n.op.Add?
      modifies this`grad, this`retained, graph
      ensures Propagated(old(graph.node), old(retained), old(grad), old(graph.nextValue), n)
    {
      hide DefUse, Written, Below, AllWithin, NodesBelow, Newer, AllSound, Added, Grown, Gives, Step, Has, Kept;
      GradBelow(n);
      SetGrad(n.inputs[0], grad[n.outputs[0]]);
      ghost var node, mid := graph.node, grad;
      AddedOnly(node, old(grad), mid, n.inputs[0], n.outputs[0], old(grad)[n.outputs[0]]);
      GradBelow(n);
      SetGrad(n.inputs[1], grad[n.outputs[0]]);
      ghost var gy := old(grad)[n.outputs[0]];
      AddedGrown(node, retained, graph.node, retained, old(grad), mid, n.inputs[0], gy);
      GrownTrans(old(graph.node), retained, node, retained, graph.node, retained);
      PassGives(graph.node, g.node, retained, old(grad), n, 0);
      PassGives(graph.node, g.node, retained, old(grad), n, 1);
      StepTwo(graph.node, g.node, retained, old(grad), mid, grad, n, gy, gy);
    }

    method SubGradFn(n: Node)
      requires Ok() && Ready(n) && n.op.Sub?
      modifies this`grad, this`retained, graph
      ensures Propagated(old(graph.node), old(retained), old(grad), old(graph.nextValue), n)
    {
      hide DefUse, Written, Below, AllWithin, NodesBelow, Newer, AllSound, Added, Grown, Gives, Step, Has, Kept;
      GradBelow(n);
      SetGrad(n.inputs[0], grad[n.outputs[0]]);
      ghost var node, mid := graph.node, grad;
      AddedOnly(node, old(grad), mid, n.inputs[0], n.outputs[0], old(grad)[n.outputs[0]]);
      GradBelow(n);
      var gx := GradOp(Neg, n.inputs[1], [grad[n.outputs[0]]]);
      ghost var gy := old(grad)[n.outputs[0]];
      AddedGrown(node, retained, graph.node, retained, old(grad), mid, n.inputs[0], gy);
      GrownTrans(old(graph.node), retained, node, retained, graph.node, retained);
      PassGives(graph.node, g.node, retained, old(grad), n, 0);
      NegGives(graph.node, g.node, retained, old(grad), n, 1, gx);
      StepTwo(graph.node, g.node, retained, old(grad), mid, grad, n, gy, gx);
    }

    /** NegGradFn and IdentityGradFn: the operator itself, applied to the gradient. */
    method SameOpGradFn(n: Node)
      requires Ok() && Ready(n) && (n.op.Neg? || n.op.Identity?)
      modifies this`grad, this`retained, graph
      ensures Propagated(old(graph.node), old(retained), old(grad), old(graph.nextValue), n)
    {
      hide DefUse, Written, Below, AllWithin, NodesBelow, Newer, AllSound, Added, Grown, Gives, Step, Has, Kept;
      GradBelow(n);
      var gx := GradOp(n.op, n.inputs[0], [grad[n.outputs[0]]]);
      NegGives(graph.node, g.node, retained, old(grad), n, 0, gx);
      StepOne(graph.node, g.node, retained, old(grad), grad, n, gx);
    }

    /** A node that multiplies a gradient by a forward value. */
    method Times(gy: ValueId, x: ValueId) returns (v: ValueId)
      requires Ok() && Mine(gy) && x < graph.nextValue
      modifies this`retained, graph
      ensures Ok() && Mine(v) && graph.nextValue >= old(graph.nextValue)
      ensures Grown(old(graph.node), old(retained), graph.node, retained)
      ensures Product(graph.node, g.node, retained, gy, x, v)
      ensures Retains(old(retained), retained, twoGraphs, {x})
    {
      hide DefUse, Written, Below, AllWithin, NodesBelow, Newer, AllSound, Grown, Product, Ratio, Has, Kept;
      var r := Retain(x);
      ghost var node := graph.node;
      v := Op(Mul, [gy, r]);
      GrownTrans(old(graph.node), old(retained), node, retained, graph.node, retained);
      KeptGrown(g, node, retained, graph.node, retained, x, r);
      ProductMeans(g, graph.node, retained, gy, x, r, v);
    }

    method MulGradOperand(gy: ValueId, x: ValueId, other: ValueId) returns (gx: ValueId)
      requires Ok() && Mine(gy) && x < graph.nextValue && other < graph.nextValue
      modifies this`grad, this`retained, graph
      ensures Ok() && graph.nextValue >= old(graph.nextValue)
      ensures Grown(old(graph.node), old(retained), graph.node, retained)
      ensures Added(graph.node, old(grad), grad, x, gx)
      ensures Product(graph.node, g.node, retained, gy, other, gx) && ReducedAs(g, graph.node, retained, x, gx)
      ensures Retains(old(retained), retained, twoGraphs, {x, other})
    {
      hide DefUse, Written, Below, AllWithin, NodesBelow, Newer, AllSound, Grown, Product, Ratio, Has, Kept, Added,
        ReducedAs;
      var mul := Times(gy, other);
      ghost var node1, retained1 := graph.node, retained;
      var r := Retain(x);
      ghost var node2 := graph.node;
      var shape := Op(Shape, [r]);
      ghost var node3 := graph.node;
      gx := GradOp(ReduceSumTo, x, [mul, shape]);
      GrownTrans(node2, retained, node3, retained, graph.node, retained);
      GrownTrans(node1, retained1, node2, retained, graph.node, retained);
      GrownTrans(old(graph.node), old(retained), node1, retained1, graph.node, retained);
      ProductGrown(node1, retained1, graph.node, retained, g.node, gy, other, mul);
      KeptGrown(g, node2, retained, graph.node, retained, x, r);
      HasGrown(node3, retained, graph.node, retained, Node(Shape, [r], [shape]));
      ReducedNow(g, graph.node, retained, x, gx, mul, r, shape);
      SumToMeans(g, graph.node, retained, gy, other, mul, shape, gx);
    }

    method MulGradFn(n: Node)
      requires Ok() && Ready(n) && n.op.Mul?
      modifies this`grad, this`retained, graph
      ensures Propagated(old(graph.node), old(retained), old(grad), old(graph.nextValue), n)
      ensures BothReduced(g, graph.node, retained, old(grad), grad, n)
    {
      hide DefUse, Written, Below, AllWithin, NodesBelow, Newer, AllSound, Added, Grown, Gives, Step, Has, Kept,
        Product, Ratio, ReducedAs;
      GradBelow(n);
      ForwardBelow(n);
      var gy := grad[n.outputs[0]];
      var gx0 := MulGradOperand(gy, n.inputs[0], n.inputs[1]);
      ghost var node, mid, retained1 := graph.node, grad, retained;
      var gx1 := MulGradOperand(gy, n.inputs[1], n.inputs[0]);
      AddedGrown(node, retained1, graph.node, retained, old(grad), mid, n.inputs[0], gx0);
      ProductGrown(node, retained1, graph.node, retained, g.node, gy, n.inputs[1], gx0);
      ReducedGrown(g, node, retained1, graph.node, retained, n.inputs[0], gx0);
      GrownTrans(old(graph.node), old(retained), node, retained1, graph.node, retained);
      MulGives(graph.node, g.node, retained, old(grad), n, 0, gx0);
      MulGives(graph.node, g.node, retained, old(grad), n, 1, gx1);
      StepTwo(graph.node, g.node, retained, old(grad), mid, grad, n, gx0, gx1);
    }

    method SquareGradFn(n: Node)
      requires Ok() && Ready(n) && n.op.Square?
      modifies this`grad, this`retained, graph
      ensures Propagated(old(graph.node), old(retained), old(grad), old(graph.nextValue), n)
    {
      hide DefUse, Written, Below, AllWithin, NodesBelow, Newer, AllSound, Added, Grown, Gives, Step, Has, Kept,
        Product, Ratio;
      GradBelow(n);
      ForwardBelow(n);
      var mul := Times(grad[n.outputs[0]], n.inputs[0]);
      ghost var node, retained1 := graph.node, retained;
      var gx := GradOp(Add, n.inputs[0], [mul, mul]);
      ProductGrown(node, retained1, graph.node, retained, g.node, old(grad)[n.outputs[0]], n.inputs[0], mul);
      GrownTrans(old(graph.node), old(retained), node, retained1, graph.node, retained);
      SquareGives(graph.node, g.node, retained, old(grad), n, mul, gx);
      StepOne(graph.node, g.node, retained, old(grad), grad, n, gx);
    }

    /** GradOp of a division by a forward value. */
    method DivGradOperand(gy: ValueId, x: ValueId, den: ValueId) returns (gx: ValueId)
      requires Ok() && Mine(gy) && x < graph.nextValue && den < graph.nextValue && Divisor(g, den)
      modifies this`grad, this`retained, graph
      ensures Ok() && Mine(gx) && graph.nextValue >= old(graph.nextValue)
      ensures Grown(old(graph.node), old(retained), graph.node, retained)
      ensures Added(graph.node, old(grad), grad, x, gx)
      ensures Ratio(graph.node, g.node, retained, gy, den, gx)
      ensures Retains(old(retained), retained, twoGraphs, {den})
    {
      hide DefUse, Written, Below, AllWithin, NodesBelow, Newer, AllSound, Grown, Product, Ratio, Has, Kept, Added;
      var r := Retain(den);
      ghost var node := graph.node;
      assert DividesBy(g, node, retained, r);
      gx := GradOp(Div, x, [gy, r]);
      GrownTrans(old(graph.node), old(retained), node, retained, graph.node, retained);
      KeptGrown(g, node, retained, graph.node, retained, den, r);
      RatioMeans(g, graph.node, retained, gy, den, r, gx);
    }

    method DivGradFn(n: Node)
      requires Ok() && Ready(n) && n.op.Div?
      modifies this`grad, this`retained, graph
      ensures Propagated(old(graph.node), old(retained), old(grad), old(graph.nextValue), n)
    {
      hide DefUse, Written, Below, AllWithin, NodesBelow, Newer, AllSound, Added, Grown, Gives, Step, Has, Kept,
        Product, Ratio;
      GradBelow(n);
      ForwardBelow(n);
      ForwardDivisor(n);
      var gy := grad[n.outputs[0]];
      var gx0 := DivGradOperand(gy, n.inputs[0], n.inputs[1]);
      ghost var node1, mid, retained1 := graph.node, grad, retained;
      var t0 := Op(Neg, [gx0]);
      ghost var node2 := graph.node;
      var t1 := Times(t0, n.inputs[0]);
      ghost var node3, retained3 := graph.node, retained;
      var gx1 := DivGradOperand(t1, n.inputs[1], n.inputs[1]);
      GrownTrans(node2, retained1, node3, retained3, graph.node, retained);
      GrownTrans(node1, retained1, node2, retained1, graph.node, retained);
      GrownTrans(old(graph.node), old(retained), node1, retained1, graph.node, retained);
      AddedGrown(node1, retained1, graph.node, retained, old(grad), mid, n.inputs[0], gx0);
      ProductGrown(node1, retained1, graph.node, retained, g.node, gy, n.inputs[1], gx0);
      ProductGrown(node3, retained3, graph.node, retained, g.node, t0, n.inputs[0], t1);
      HasGrown(node2, retained1, graph.node, retained, Node(Neg, [gx0], [t0]));
      DivGivesFirst(graph.node, g.node, retained, old(grad), n, gx0);
      DivGivesSecond(graph.node, g.node, retained, old(grad), n, gx0, t0, t1, gx1);
      StepTwo(graph.node, g.node, retained, old(grad), mid, grad, n, gx0, gx1);
    }

    /** AddGradientForNode: false when the gradient of the node's output is missing. */
    method AddGradientForNode(n: Node) returns (ok: bool)
      requires Ok() && Forward(n)
      requires Differentiable(n.op) ==> |n.inputs| == Arity(n.op) && |n.outputs| == 1 && n.outputs[0] !in n.inputs
      modifies this`grad, this`retained, graph
      ensures ok <==> (Differentiable(n.op) ==> n.outputs[0] in old(grad))
      ensures ok && Differentiable(n.op) ==>
        Propagated(old(graph.node), old(retained), old(grad), old(graph.nextValue), n)
      ensures !(ok && Differentiable(n.op)) ==> unchanged(this) && unchanged(graph)
    {
      hide DefUse, Written, Below, AllWithin, NodesBelow, Newer, AllSound, Has, Step, Grown, RetainedFor;
      if !n.op.Add? && !n.op.Sub? && !n.op.Mul? && !n.op.Square? && !n.op.Div? && !n.op.Neg? && !n.op.Identity? {
        return true;
      }
      if n.outputs[0] !in grad { return false; }
      if n.op.Add? {
        AddGradFn(n);
      } else if n.op.Sub? {
        SubGradFn(n);
      } else if n.op.Mul? {
        MulGradFn(n);
      } else if n.op.Square? {
        SquareGradFn(n);
      } else if n.op.Div? {
        DivGradFn(n);
      } else {
        SameOpGradFn(n);
      }
      ok := true;
    }
  }

  /** In two-graph mode, and only then, values of `vs` may have been retained. */
  ghost predicate Retains(before: map<ValueId, ValueId>, after: map<ValueId, ValueId>, twoGraphs: bool,
                          vs: set<ValueId>) {
    && (!twoGraphs ==> after == before)
    && (forall v :: v in after && v !in before ==> v in vs)
  }

  /** Only operands of `n` are retained for it. */
  ghost predicate RetainedFor(before: map<ValueId, ValueId>, after: map<ValueId, ValueId>, twoGraphs: bool, n: Node) {
    Retains(before, after, twoGraphs, SetOf(n.inputs))
  }

  lemma AddedOnly(node: map<NodeId, Node>, before: Grads, after: Grads, x: ValueId, y: ValueId, gx: ValueId)
    requires Added(node, before, after, x, gx)
    ensures after.Keys == before.Keys + {x} && (y != x && y in before ==> after[y] == before[y])
  {
  }

  /** Values older than `bound` get no new writer. */
  ghost predicate OldWriters(before: map<ValueId, NodeId>, after: map<ValueId, NodeId>, bound: nat) {
    forall v :: v in after && v < bound ==> v in before
  }
}
