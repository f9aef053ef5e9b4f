/** What reverse mode computes in a run, and why it is the adjoint of the forward tangents. */
module ReverseMode {
  import opened Ir
  import opened Worklist
  import opened Dual
  import opened GradientOps

  // ---- sums over value ids ----

  ghost function Sum(bound: nat, f: ValueId -> real): real {
    if bound == 0 then 0.0 else Sum(bound - 1, f) + f(bound - 1)
  }

  ghost function Over(vs: seq<ValueId>, f: ValueId -> real): real {
    if vs == [] then 0.0 else Over(vs[..|vs| - 1], f) + f(vs[|vs| - 1])
  }

  lemma {:induction false} SumPlus(bound: nat, f: ValueId -> real, g: ValueId -> real, h: ValueId -> real)
    requires forall v: ValueId :: v < bound ==> h(v) == f(v) + g(v)
    ensures Sum(bound, h) == Sum(bound, f) + Sum(bound, g)
  {
    if bound > 0 { SumPlus(bound - 1, f, g, h); }
  }

  lemma {:induction false} SumEqual(bound: nat, f: ValueId -> real, g: ValueId -> real)
    requires forall v: ValueId :: v < bound ==> f(v) == g(v)
    ensures Sum(bound, f) == Sum(bound, g)
  {
    if bound > 0 { SumEqual(bound - 1, f, g); }
  }

  lemma {:induction false} SumAt(bound: nat, f: ValueId -> real, a: ValueId)
    requires forall v: ValueId :: v < bound && v != a ==> f(v) == 0.0
    ensures Sum(bound, f) == if a < bound then f(a) else 0.0
  {
    if bound > 0 { SumAt(bound - 1, f, a); }
  }

  function Without(f: ValueId -> real, a: ValueId): ValueId -> real {
    (v: ValueId) => if v == a then 0.0 else f(v)
  }

  function Only(f: ValueId -> real, a: ValueId): ValueId -> real {
    (v: ValueId) => if v == a then f(v) else 0.0
  }

  lemma SumWithout(bound: nat, f: ValueId -> real, a: ValueId)
    requires a < bound
    ensures Sum(bound, f) == Sum(bound, Without(f, a)) + f(a)
  {
    SumPlus(bound, Without(f, a), Only(f, a), f);
    SumAt(bound, Only(f, a), a);
  }

  /** A function that vanishes off a list of different values is summed by summing over the list. */
  lemma {:induction false} SumList(bound: nat, f: ValueId -> real, vs: seq<ValueId>)
    requires Distinct(vs) && forall v :: v in vs ==> v < bound
    requires forall v: ValueId :: v < bound && v !in vs ==> f(v) == 0.0
    ensures Sum(bound, f) == Over(vs, f)
  {
    hide Sum;
    if vs == [] {
      SumAt(bound, f, bound);
    } else {
      var init, last := vs[..|vs| - 1], vs[|vs| - 1];
      assert vs == init + [last];
      assert last in vs && last !in init;
      assert forall v :: v in vs <==> v in init || v == last;
      SumWithout(bound, f, last);
      SumList(bound, Without(f, last), init);
      OverEqual(init, Without(f, last), f);
    }
  }

  lemma {:induction false} OverEqual(vs: seq<ValueId>, f: ValueId -> real, g: ValueId -> real)
    requires forall v :: v in vs ==> f(v) == g(v)
    ensures Over(vs, f) == Over(vs, g)
  {
    if vs != [] {
      assert forall v :: v in vs[..|vs| - 1] ==> v in vs;
      OverEqual(vs[..|vs| - 1], f, g);
    }
  }

  // ---- what the pass computes ----

  /** The gradient of `v` once the gradients have been propagated through `nodes`. */
  ghost function Backward(env: Env, nodes: seq<Node>, seed: ValueId -> real, v: ValueId): real {
    if nodes == [] then seed(v)
    else
      var before, n := nodes[..|nodes| - 1], nodes[|nodes| - 1];
      Backward(env, before, seed, v)
      + if Operand(env, n) then Contribution(env, n, Backward(env, before, seed, n.outputs[0]), v) else 0.0
  }

  /** Every value is read before the node that writes it comes up. */
  ghost predicate ConsumersFirst(nodes: seq<Node>) {
    forall j {:trigger nodes[j]} :: 0 <= j < |nodes| ==> InTurn(nodes[..j], nodes[j])
  }

  ghost predicate InTurn(nodes: seq<Node>, n: Node) {
    && WritesNothingRead(nodes + [n], n)
    && (forall v :: v in n.outputs ==> !WrittenBy(nodes, v))
  }

  /** `n` reads nothing that `nodes` write. */
  ghost predicate WritesNothingRead(nodes: seq<Node>, n: Node) {
    forall v :: v in n.inputs ==> !WrittenBy(nodes, v)
  }

  ghost predicate WrittenBy(nodes: seq<Node>, v: ValueId) {
    exists i :: 0 <= i < |nodes| && v in nodes[i].outputs
  }

  function Duals(tan: ValueId -> Number, vs: seq<ValueId>): (r: seq<Number>)
    ensures |r| == |vs| && forall i :: 0 <= i < |vs| ==> r[i] == tan(vs[i])
  {
    seq(|vs|, i requires 0 <= i < |vs| => tan(vs[i]))
  }

  /** What node `n` does to tangents.  Nothing is said of tangents that come to an operator whose
      gradient is not modelled: there are none. */
  ghost predicate Carries(env: Env, tan: ValueId -> Number, n: Node, v: ValueId) {
    if Differentiable(n.op) then
      && Operand(env, n) && (n.op.Div? ==> tan(n.inputs[1]).re != 0.0)
      && tan(v) == DualApply(n.op, Duals(tan, n.inputs))
    else
      tan(v).du == 0.0 && (LocallyConstant(n.op) || forall x :: x in n.inputs ==> tan(x).du == 0.0)
  }

  /** Inner product of a value's gradient with its tangent; nothing once its producer is done. */
  ghost function Weight(env: Env, nodes: seq<Node>, seed: ValueId -> real, tan: ValueId -> Number, v: ValueId): real {
    if WrittenBy(nodes, v) then 0.0 else Backward(env, nodes, seed, v) * tan(v).du
  }

  ghost function Weights(env: Env, nodes: seq<Node>, seed: ValueId -> real, tan: ValueId -> Number): ValueId -> real {
    (v: ValueId) => Weight(env, nodes, seed, tan, v)
  }

  lemma WrittenMore(nodes: seq<Node>, n: Node, v: ValueId)
    ensures WrittenBy(nodes + [n], v) <==> WrittenBy(nodes, v) || v in n.outputs
  {
    if WrittenBy(nodes, v) {
      var i :| 0 <= i < |nodes| && v in nodes[i].outputs;
      assert (nodes + [n])[i] == nodes[i];
    }
    if v in n.outputs { assert (nodes + [n])[|nodes|] == n; }
  }

  lemma BackwardMore(env: Env, nodes: seq<Node>, n: Node, seed: ValueId -> real, v: ValueId)
    ensures Backward(env, nodes + [n], seed, v) == Backward(env, nodes, seed, v)
      + if Operand(env, n) then Contribution(env, n, Backward(env, nodes, seed, n.outputs[0]), v) else 0.0
  {
    assert (nodes + [n])[..|nodes|] == nodes;
  }

  ghost predicate Primal(env: Env, tan: ValueId -> Number) {
    forall v: ValueId :: tan(v).re == RealOf(env(v))
  }

  /** A node whose step is about to be taken. */
  ghost predicate Takes(env: Env, tan: ValueId -> Number, nodes: seq<Node>, n: Node) {
    && Primal(env, tan)
    && (forall v :: v in n.outputs ==> Carries(env, tan, n, v))
    && InTurn(nodes, n)
  }

  /** What the step through `n` changes at value `v`. */
  ghost function Change(env: Env, n: Node, gy: real, tan: ValueId -> Number, v: ValueId): real
    requires Operand(env, n)
  {
    Contribution(env, n, gy, v) * tan(v).du - if v == n.outputs[0] then gy * tan(v).du else 0.0
  }

  lemma WeightStep(env: Env, nodes: seq<Node>, n: Node, seed: ValueId -> real, tan: ValueId -> Number, v: ValueId)
    requires Takes(env, tan, nodes, n) && Operand(env, n)
    ensures Weight(env, nodes + [n], seed, tan, v)
      == Weight(env, nodes, seed, tan, v) + Change(env, n, Backward(env, nodes, seed, n.outputs[0]), tan, v)
  {
    hide Backward, WrittenBy, Carries;
    WrittenMore(nodes, n, v);
    BackwardMore(env, nodes, n, seed, v);
    var gy := Backward(env, nodes, seed, n.outputs[0]);
    var c := Contribution(env, n, gy, v);
    Spread(Backward(env, nodes, seed, v), c, tan(v).du);
    if v in n.inputs {
      assert !WrittenBy(nodes + [n], v);
    } else {
      assert c == 0.0;
    }
  }

  lemma Spread(a: real, b: real, c: real)
    ensures (a + b) * c == a * c + b * c
  {
  }

  /** `c` at `a`, nothing elsewhere. */
  ghost function At(a: ValueId, c: real, tan: ValueId -> Number): ValueId -> real {
    (v: ValueId) => if v == a then c * tan(v).du else 0.0
  }

  lemma SumTwo(bound: nat, f: ValueId -> real, tan: ValueId -> Number, a: ValueId, p: real, b: ValueId, q: real)
    requires a < bound && b < bound
    requires forall v: ValueId :: v < bound ==> f(v) == At(a, p, tan)(v) + At(b, q, tan)(v)
    ensures Sum(bound, f) == p * tan(a).du + q * tan(b).du
  {
    SumAt(bound, At(a, p, tan), a);
    SumAt(bound, At(b, q, tan), b);
    SumPlus(bound, At(a, p, tan), At(b, q, tan), f);
  }

  lemma UnaryReceived(n: Node, env: Env, gy: real, tan: ValueId -> Number)
    requires Primal(env, tan) && Operand(env, n) && Carries(env, tan, n, n.outputs[0]) && |n.inputs| == 1
    ensures Pullback(n.op, Reals(env, n.inputs), gy, 0) * tan(n.inputs[0]).du + (-gy) * tan(n.outputs[0]).du == 0.0
  {
    hide Pullback, DualApply;
    var args := Duals(tan, n.inputs);
    assert Re(args) == Reals(env, n.inputs);
    PullbackIsAdjoint(n.op, args, gy);
    Distribute(gy, gy, tan(n.outputs[0]).du);
  }

  lemma BinaryReceived(n: Node, env: Env, gy: real, tan: ValueId -> Number)
    requires Primal(env, tan) && Operand(env, n) && Carries(env, tan, n, n.outputs[0]) && |n.inputs| == 2
    ensures Pullback(n.op, Reals(env, n.inputs), gy, 0) * tan(n.inputs[0]).du
      + Pullback(n.op, Reals(env, n.inputs), gy, 1) * tan(n.inputs[1]).du + (-gy) * tan(n.outputs[0]).du == 0.0
  {
    hide Pullback, DualApply;
    var args := Duals(tan, n.inputs);
    assert Re(args) == Reals(env, n.inputs);
    PullbackIsAdjoint(n.op, args, gy);
    Distribute(gy, gy, tan(n.outputs[0]).du);
  }

  lemma UnaryChange(env: Env, n: Node, gy: real, tan: ValueId -> Number, v: ValueId)
    requires Operand(env, n) && |n.inputs| == 1
    ensures Change(env, n, gy, tan, v)
      == At(n.inputs[0], Pullback(n.op, Reals(env, n.inputs), gy, 0), tan)(v) + At(n.outputs[0], -gy, tan)(v)
  {
    hide Pullback;
    Distribute(gy, gy, tan(v).du);
  }

  lemma BinaryChange(env: Env, n: Node, gy: real, tan: ValueId -> Number, v: ValueId)
    requires Operand(env, n) && |n.inputs| == 2
    ensures Change(env, n, gy, tan, v)
      == At(n.inputs[0], Pullback(n.op, Reals(env, n.inputs), gy, 0), tan)(v)
       + At(n.inputs[1], Pullback(n.op, Reals(env, n.inputs), gy, 1), tan)(v) + At(n.outputs[0], -gy, tan)(v)
  {
    hide Pullback, Contribution;
    var p0, p1 := Pullback(n.op, Reals(env, n.inputs), gy, 0), Pullback(n.op, Reals(env, n.inputs), gy, 1);
    ContributionIs(env, n, gy, v);
    Spread(if n.inputs[0] == v then p0 else 0.0, if n.inputs[1] == v then p1 else 0.0, tan(v).du);
    Distribute(gy, gy, tan(v).du);
  }

  /** The changes of one step cancel: the pullback is the adjoint of the operator. */
  lemma ChangesCancel(env: Env, n: Node, gy: real, tan: ValueId -> Number, bound: nat)
    requires Primal(env, tan) && Operand(env, n) && Carries(env, tan, n, n.outputs[0])
    requires forall v :: v in n.inputs || v in n.outputs ==> v < bound
    ensures Sum(bound, (v: ValueId) => Change(env, n, gy, tan, v)) == 0.0
  {
    hide Pullback, DualApply, Carries, Contribution, Change, At, Sum, Primal;
    var y, x0 := n.outputs[0], n.inputs[0];
    assert x0 in n.inputs && y in n.outputs;
    var all := (v: ValueId) => Change(env, n, gy, tan, v);
    var p0 := Pullback(n.op, Reals(env, n.inputs), gy, 0);
    if |n.inputs| == 1 {
      UnaryReceived(n, env, gy, tan);
      forall v: ValueId | v < bound ensures all(v) == At(x0, p0, tan)(v) + At(y, -gy, tan)(v) {
        UnaryChange(env, n, gy, tan, v);
      }
      SumTwo(bound, all, tan, x0, p0, y, -gy);
    } else {
      BinaryReceived(n, env, gy, tan);
      var x1, p1 := n.inputs[1], Pullback(n.op, Reals(env, n.inputs), gy, 1);
      assert x1 in n.inputs;
      var two := (v: ValueId) => At(x0, p0, tan)(v) + At(x1, p1, tan)(v);
      SumTwo(bound, two, tan, x0, p0, x1, p1);
      AtSum(bound, y, -gy, tan);
      forall v: ValueId | v < bound ensures all(v) == two(v) + At(y, -gy, tan)(v) {
        BinaryChange(env, n, gy, tan, v);
      }
      SumPlus(bound, two, At(y, -gy, tan), all);
    }
  }

  lemma AtSum(bound: nat, a: ValueId, c: real, tan: ValueId -> Number)
    requires a < bound
    ensures Sum(bound, At(a, c, tan)) == c * tan(a).du
  {
    SumAt(bound, At(a, c, tan), a);
  }

  /** No step changes the inner product of the pending gradients with the tangents. */
  lemma StepKeepsProduct(env: Env, nodes: seq<Node>, n: Node, seed: ValueId -> real, tan: ValueId -> Number, bound: nat)
    requires Takes(env, tan, nodes, n) && forall v :: v in n.inputs || v in n.outputs ==> v < bound
    ensures Sum(bound, Weights(env, nodes + [n], seed, tan)) == Sum(bound, Weights(env, nodes, seed, tan))
  {
    hide Backward, WrittenBy, Contribution, Pullback, DualApply;
    var before, after := Weights(env, nodes, seed, tan), Weights(env, nodes + [n], seed, tan);
    if Operand(env, n) {
      var gy := Backward(env, nodes, seed, n.outputs[0]);
      var change := (v: ValueId) => Change(env, n, gy, tan, v);
      forall v: ValueId | v < bound ensures after(v) == before(v) + change(v) {
        WeightStep(env, nodes, n, seed, tan, v);
      }
      ChangesCancel(env, n, gy, tan, bound);
      SumPlus(bound, before, change, after);
    } else {
      forall v: ValueId | v < bound ensures after(v) == before(v) {
        WrittenMore(nodes, n, v);
        BackwardMore(env, nodes, n, seed, v);
      }
      SumEqual(bound, before, after);
    }
  }

  /** No run of steps does. */
  lemma {:induction false} StepsKeepProduct(env: Env, nodes: seq<Node>, seed: ValueId -> real, tan: ValueId -> Number,
                                            bound: nat)
    requires Primal(env, tan) && ConsumersFirst(nodes) && Carried(env, tan, nodes) && AllBelow(nodes, bound)
    ensures Sum(bound, Weights(env, nodes, seed, tan)) == Sum(bound, (v: ValueId) => seed(v) * tan(v).du)
  {
    hide Backward, WrittenBy, Carries, InTurn;
    if nodes == [] {
      NothingTaken(env, seed, tan, bound);
    } else {
      var before, n := nodes[..|nodes| - 1], nodes[|nodes| - 1];
      assert nodes == before + [n];
      Earlier(env, tan, nodes, bound);
      StepsKeepProduct(env, before, seed, tan, bound);
      StepKeepsProduct(env, before, n, seed, tan, bound);
    }
  }

  ghost predicate Carried(env: Env, tan: ValueId -> Number, nodes: seq<Node>) {
    forall i, v :: 0 <= i < |nodes| && v in nodes[i].outputs ==> Carries(env, tan, nodes[i], v)
  }

  ghost predicate AllBelow(nodes: seq<Node>, bound: nat) {
    forall i, v :: 0 <= i < |nodes| && (v in nodes[i].inputs || v in nodes[i].outputs) ==> v < bound
  }

  lemma Earlier(env: Env, tan: ValueId -> Number, nodes: seq<Node>, bound: nat)
    requires nodes != [] && ConsumersFirst(nodes) && Carried(env, tan, nodes) && AllBelow(nodes, bound)
    ensures ConsumersFirst(nodes[..|nodes| - 1]) && Carried(env, tan, nodes[..|nodes| - 1])
    ensures AllBelow(nodes[..|nodes| - 1], bound)
  {
    hide InTurn, Carries;
    var before := nodes[..|nodes| - 1];
    forall j | 0 <= j < |before| ensures InTurn(before[..j], before[j]) {
      assert before[..j] == nodes[..j] && before[j] == nodes[j];
    }
  }

  lemma NothingTaken(env: Env, seed: ValueId -> real, tan: ValueId -> Number, bound: nat)
    ensures Sum(bound, Weights(env, [], seed, tan)) == Sum(bound, (v: ValueId) => seed(v) * tan(v).du)
  {
    SumEqual(bound, Weights(env, [], seed, tan), (v: ValueId) => seed(v) * tan(v).du);
  }

  /** Inner product, over a list of values, of gradients with tangents. */
  ghost function Inner(vs: seq<ValueId>, gradient: ValueId -> real, tan: ValueId -> Number): real {
    Over(vs, (v: ValueId) => gradient(v) * tan(v).du)
  }

  /** The gradients left at `xs` are the adjoint of the tangents there. */
  lemma Adjoint(env: Env, nodes: seq<Node>, seed: ValueId -> real, tan: ValueId -> Number, bound: nat,
                xs: seq<ValueId>, ys: seq<ValueId>)
    requires Primal(env, tan) && ConsumersFirst(nodes) && Carried(env, tan, nodes) && AllBelow(nodes, bound)
    requires Distinct(xs) && Distinct(ys) && forall v :: v in xs || v in ys ==> v < bound
    requires forall v: ValueId :: v !in ys ==> seed(v) == 0.0
    requires forall v: ValueId :: v in xs ==> !WrittenBy(nodes, v)
    requires forall v: ValueId :: v !in xs && !WrittenBy(nodes, v) ==>
        Backward(env, nodes, seed, v) == 0.0 || tan(v).du == 0.0
    ensures Inner(ys, seed, tan) == Inner(xs, (v: ValueId) => Backward(env, nodes, seed, v), tan)
  {
    hide Backward, WrittenBy, Carries, InTurn;
    StepsKeepProduct(env, nodes, seed, tan, bound);
    var first := (v: ValueId) => seed(v) * tan(v).du;
    SumList(bound, first, ys);
    var last := Weights(env, nodes, seed, tan);
    SumList(bound, last, xs);
    var gradient := (v: ValueId) => Backward(env, nodes, seed, v);
    OverEqual(xs, last, (v: ValueId) => gradient(v) * tan(v).du);
  }
}
