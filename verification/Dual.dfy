/** Tangents as dual numbers: the derivative part of a run of the forward graph, and the
    transposed derivative of every operator. */
module Dual {
  import opened Ir

  /** `re + du * epsilon` with `epsilon * epsilon == 0`. */
  datatype Number = Number(re: real, du: real)

  function DualAdd(a: Number, b: Number): Number { Number(a.re + b.re, a.du + b.du) }
  function DualSub(a: Number, b: Number): Number { Number(a.re - b.re, a.du - b.du) }
  function DualMul(a: Number, b: Number): Number { Number(a.re * b.re, a.re * b.du + a.du * b.re) }
  function DualNeg(a: Number): Number { Number(-a.re, -a.du) }

  function Squared(y: real): real {
    y * y
  }

  lemma Cancel(x: real, p: real, y: real)
    requires y != 0.0 && x * y == p
    ensures x == p / y
  {
  }

  lemma SquaredNonZero(y: real)
    requires y != 0.0
    ensures Squared(y) != 0.0
  {
    if Squared(y) == 0.0 {
      Cancel(y, 0.0, y);
      Cancel(0.0, 0.0, y);
    }
  }

  function DualDiv(a: Number, b: Number): Number
    requires b.re != 0.0
  {
    SquaredNonZero(b.re);
    Number(a.re / b.re, (a.du * b.re - a.re * b.du) / Squared(b.re))
  }

  lemma DivTimes(x: real, y: real)
    requires y != 0.0
    ensures (x / y) * y == x
  {
  }

  /** Division is the inverse of multiplication, which fixes its derivative. */
  lemma DualDivIsInverse(a: Number, b: Number)
    requires b.re != 0.0
    ensures DualMul(DualDiv(a, b), b) == a
  {
    var q := a.re / b.re;
    var p := a.du * b.re - a.re * b.du;
    DivTimes(a.re, b.re);
    Quotient(p, b.re);
    assert q * b.re == a.re;
    assert (p / Squared(b.re)) * b.re == p / b.re;
    SplitQuotient(a.du, a.re, b.du, b.re);
    assert p / b.re == a.du - q * b.du;
  }

  lemma Quotient(p: real, y: real)
    requires y != 0.0
    ensures Squared(y) != 0.0 && (p / Squared(y)) * y == p / y
  {
    SquaredNonZero(y);
    var z := p / Squared(y);
    DivTimes(p, Squared(y));
    assert (z * y) * y == z * (y * y);
    Cancel(z * y, p, y);
  }

  lemma SplitQuotient(u: real, r: real, v: real, y: real)
    requires y != 0.0
    ensures (u * y - r * v) / y == u - (r / y) * v
  {
    DivTimes(r, y);
    var q := r / y;
    assert (u - q * v) * y == u * y - (q * y) * v;
    Cancel(u - q * v, u * y - r * v, y);
  }

  /** The operators whose gradients are modelled, with their numbers of operands. */
  ghost function Arity(op: Op): nat {
    match op
    case Add | Sub | Mul | Div => 2
    case Square | Neg | Identity => 1
    case _ => 0
  }

  ghost predicate Differentiable(op: Op) {
    Arity(op) > 0
  }

  /** Operators of the model that have no gradient to pass on. */
  ghost predicate LocallyConstant(op: Op) {
    op.Constant? || op.Shape? || op.SequenceLength?
  }

  /** An operator on dual numbers. */
  ghost function DualApply(op: Op, args: seq<Number>): Number
    requires Differentiable(op) && |args| == Arity(op) && (op.Div? ==> args[1].re != 0.0)
  {
    match op
    case Add => DualAdd(args[0], args[1])
    case Sub => DualSub(args[0], args[1])
    case Mul => DualMul(args[0], args[1])
    case Div => DualDiv(args[0], args[1])
    case Square => DualMul(args[0], args[0])
    case Neg => DualNeg(args[0])
    case Identity => args[0]
  }

  /** What operand `i` receives when the output of the operator receives `gy`. */
  ghost function Pullback(op: Op, args: seq<real>, gy: real, i: nat): real
    requires Differentiable(op) && |args| == Arity(op) && i < |args| && (op.Div? ==> args[1] != 0.0)
  {
    match op
    case Add => gy
    case Sub => if i == 0 then gy else -gy
    case Mul => gy * args[1 - i]
    case Div => if i == 0 then gy / args[1] else -(gy / args[1]) * args[0] / args[1]
    case Square => gy * args[0] + gy * args[0]
    case Neg => -gy
    case Identity => gy
  }

  function Re(args: seq<Number>): (r: seq<real>)
    ensures |r| == |args| && forall i :: 0 <= i < |args| ==> r[i] == args[i].re
  {
    seq(|args|, i requires 0 <= i < |args| => args[i].re)
  }

  /** Inner product of what the operands receive with their tangents. */
  ghost function Received(op: Op, args: seq<Number>, gy: real): real
    requires Differentiable(op) && |args| == Arity(op) && (op.Div? ==> args[1].re != 0.0)
  {
    if |args| == 1 then Pullback(op, Re(args), gy, 0) * args[0].du
    else Pullback(op, Re(args), gy, 0) * args[0].du + Pullback(op, Re(args), gy, 1) * args[1].du
  }

  lemma ProductAdjoint(gy: real, a: Number, b: Number)
    ensures (gy * b.re) * a.du + (gy * a.re) * b.du == gy * DualMul(a, b).du
  {
    assert gy * (a.re * b.du + a.du * b.re) == gy * (a.re * b.du) + gy * (a.du * b.re);
    assert gy * (a.re * b.du) == (gy * a.re) * b.du;
    assert gy * (a.du * b.re) == (gy * b.re) * a.du;
  }

  /** `h` is `gy / y`, `z` the derivative of the quotient. */
  lemma QuotientFactor(gy: real, z: real, y: real, t: real)
    requires y != 0.0 && z * y == t
    ensures gy * z == (gy / y) * t
  {
    DivTimes(gy, y);
    assert ((gy / y) * y) * z == (gy / y) * (z * y);
  }

  lemma QuotientSign(h: real, r: real, y: real)
    requires y != 0.0
    ensures -h * r / y == -(h * (r / y))
  {
    DivTimes(r, y);
    var q := r / y;
    assert (-(h * q)) * y == -h * (q * y);
    Cancel(-(h * q), -h * r, y);
  }

  lemma QuotientChain(gy: real, u: real, r: real, v: real, y: real, z: real, t: real)
    requires y != 0.0 && z * y == t && t == u - (r / y) * v
    ensures (gy / y) * u + (-(gy / y) * r / y) * v == gy * z
  {
    QuotientFactor(gy, z, y, t);
    QuotientSign(gy / y, r, y);
    QuotientSpread(gy / y, u, r / y, v);
  }

  lemma QuotientAdjoint(gy: real, a: Number, b: Number)
    requires b.re != 0.0
    ensures (gy / b.re) * a.du + (-(gy / b.re) * a.re / b.re) * b.du == gy * DualDiv(a, b).du
  {
    SquaredNonZero(b.re);
    QuotientParts(gy, a.du, a.re, b.du, b.re);
  }

  lemma QuotientParts(gy: real, u: real, r: real, v: real, y: real)
    requires y != 0.0 && Squared(y) != 0.0
    ensures (gy / y) * u + (-(gy / y) * r / y) * v == gy * ((u * y - r * v) / Squared(y))
  {
    hide Squared;
    var p, t := u * y - r * v, u - (r / y) * v;
    SplitQuotient(u, r, v, y);
    Quotient(p, y);
    QuotientChain(gy, u, r, v, y, p / Squared(y), t);
  }

  lemma QuotientSpread(h: real, u: real, q: real, v: real)
    ensures h * (u - q * v) == h * u + (-(h * q)) * v
  {
  }

  lemma SquareAdjoint(gy: real, a: Number)
    ensures (gy * a.re + gy * a.re) * a.du == gy * DualMul(a, a).du
  {
    ProductAdjoint(gy, a, a);
    Distribute(gy * a.re, gy * a.re, a.du);
  }

  lemma Distribute(x: real, y: real, z: real)
    ensures (x + y) * z == x * z + y * z && (x - y) * z == x * z - y * z && (-x) * z == -(x * z) && z * (-x) == -(z * x)
  {
  }

  lemma SumAdjoint(gy: real, a: Number, b: Number)
    ensures gy * a.du + gy * b.du == gy * DualAdd(a, b).du
    ensures gy * a.du + (-gy) * b.du == gy * DualSub(a, b).du
    ensures (-gy) * a.du == gy * DualNeg(a).du
  {
    Distribute(a.du, b.du, gy);
    Distribute(gy, gy, b.du);
    Distribute(gy, gy, a.du);
  }

  /** Each operator's pullback is the transpose of its derivative. */
  lemma PullbackIsAdjoint(op: Op, args: seq<Number>, gy: real)
    requires Differentiable(op) && |args| == Arity(op) && (op.Div? ==> args[1].re != 0.0)
    ensures Received(op, args, gy) == gy * DualApply(op, args).du
  {
    hide DualAdd, DualSub, DualMul, DualDiv, DualNeg;
    if op.Add? || op.Sub? {
      SumAdjoint(gy, args[0], args[1]);
    } else if op.Mul? {
      ProductAdjoint(gy, args[0], args[1]);
    } else if op.Div? {
      DivAdjoint(gy, args);
    } else if op.Square? {
      SquareAdjoint(gy, args[0]);
    } else if op.Neg? {
      SumAdjoint(gy, args[0], args[0]);
    }
  }

  lemma DivAdjoint(gy: real, args: seq<Number>)
    requires |args| == 2 && args[1].re != 0.0
    ensures Received(Div, args, gy) == gy * DualApply(Div, args).du
  {
    hide DualDiv;
    QuotientAdjoint(gy, args[0], args[1]);
  }
}
