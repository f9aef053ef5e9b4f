/** compiler/gradient_ops.cc, GemmGradFn: the gradients of the two factors of a Gemm. */
module GemmGradient {
  import opened Ir
  import RM = ReverseMode

  datatype Matrix = Matrix(rows: nat, cols: nat, at: (nat, nat) -> real)

  function Prod(x: real, y: real): real {
    x * y
  }

  function Turn(m: Matrix, trans: bool): Matrix {
    if trans then Matrix(m.cols, m.rows, (i: nat, j: nat) => m.at(j, i)) else m
  }

  /** The summands of entry (i, j) of a product. */
  function Terms(a: Matrix, b: Matrix, i: nat, j: nat): nat -> real {
    (k: nat) => Prod(a.at(i, k), b.at(k, j))
  }

  ghost function Times(a: Matrix, b: Matrix): Matrix {
    Matrix(a.rows, b.cols, (i: nat, j: nat) => RM.Sum(a.cols, Terms(a, b, i, j)))
  }

  function Scaled(x: real, m: Matrix): Matrix {
    Matrix(m.rows, m.cols, (i: nat, j: nat) => Prod(x, m.at(i, j)))
  }

  function Plus(a: Matrix, b: Matrix): Matrix {
    Matrix(a.rows, a.cols, (i: nat, j: nat) => a.at(i, j) + b.at(i, j))
  }

  function Entries(a: Matrix, b: Matrix, i: nat): nat -> real {
    (j: nat) => Prod(a.at(i, j), b.at(i, j))
  }

  ghost function Rows(a: Matrix, b: Matrix): nat -> real {
    (i: nat) => RM.Sum(a.cols, Entries(a, b, i))
  }

  /** Sum of the products of all entries. */
  ghost function Inner(a: Matrix, b: Matrix): real {
    RM.Sum(a.rows, Rows(a, b))
  }

  ghost predicate Same(a: Matrix, b: Matrix) {
    a.rows == b.rows && a.cols == b.cols && forall i: nat,
      j: nat :: i < a.rows && j < a.cols ==> a.at(i, j) == b.at(i, j)
  }

  ghost predicate Alike(a: Matrix, b: Matrix) {
    a.rows == b.rows && a.cols == b.cols
  }

  // ---- sums ----

  lemma Commutes(x: real, y: real, z: real)
    ensures Prod(x, y) == Prod(y, x) && Prod(x, Prod(y, z)) == Prod(y, Prod(x, z))
    ensures Prod(Prod(x, y), z) == Prod(x, Prod(y, z))
    ensures Prod(x, y + z) == Prod(x, y) + Prod(x, z) && Prod(y + z, x) == Prod(y, x) + Prod(z, x)
    ensures Prod(0.0, x) == 0.0
  {
  }

  lemma {:induction false} SumScale(n: nat, x: real, f: nat -> real, g: nat -> real)
    requires forall i: nat :: i < n ==> g(i) == Prod(x, f(i))
    ensures RM.Sum(n, g) == Prod(x, RM.Sum(n, f))
  {
    hide Prod;
    if n > 0 {
      SumScale(n - 1, x, f, g);
      Commutes(x, RM.Sum(n - 1, f), f(n - 1));
    } else {
      ProdZero(x);
    }
  }

  lemma ProdZero(x: real)
    ensures Prod(x, 0.0) == 0.0
  {
  }

  ghost function Line(f: (nat, nat) -> real, n: nat): nat -> real {
    (i: nat) => RM.Sum(n, Across(f, i))
  }

  function Across(f: (nat, nat) -> real, i: nat): nat -> real {
    (j: nat) => f(i, j)
  }

  function Flip(f: (nat, nat) -> real): (nat, nat) -> real {
    (j: nat, i: nat) => f(i, j)
  }

  /** The order of summation does not matter. */
  lemma {:induction false} SumSwap(f: (nat, nat) -> real, m: nat, n: nat)
    ensures RM.Sum(m, Line(f, n)) == RM.Sum(n, Line(Flip(f), m))
  {
    if n == 0 {
      RM.SumAt(m, Line(f, 0), m);
    } else {
      SumSwap(f, m, n - 1);
      RM.SumPlus(m, Line(f, n - 1), Across(Flip(f), n - 1), Line(f, n));
    }
  }

  // ---- moving a factor ----

  /** The summands of row `i` of `<g, a b>`. */
  function Summands(g: Matrix, a: Matrix, b: Matrix, i: nat): (nat, nat) -> real {
    (j: nat, k: nat) => Prod(g.at(i, j), Prod(a.at(i, k), b.at(k, j)))
  }

  lemma RowScale(g: Matrix, a: Matrix, b: Matrix, i: nat)
    ensures RM.Sum(g.cols, Entries(g, Times(a, b), i)) == RM.Sum(g.cols, Line(Summands(g, a, b, i), a.cols))
  {
    hide Prod;
    var f := Summands(g, a, b, i);
    forall j: nat | j < g.cols ensures Entries(g, Times(a, b), i)(j) == Line(f, a.cols)(j) {
      SumScale(a.cols, g.at(i, j), Terms(a, b, i, j), Across(f, j));
    }
    RM.SumEqual(g.cols, Entries(g, Times(a, b), i), Line(f, a.cols));
  }

  lemma RowColumns(g: Matrix, a: Matrix, b: Matrix, i: nat, k: nat)
    ensures Entries(Times(g, Turn(b, true)), a, i)(k) == Line(Flip(Summands(g, a, b, i)), g.cols)(k)
  {
    hide Prod;
    var f, bt := Flip(Summands(g, a, b, i)), Turn(b, true);
    forall j: nat | j < g.cols ensures Across(f, k)(j) == Prod(a.at(i, k), Terms(g, bt, i, k)(j)) {
      Commutes(g.at(i, j), a.at(i, k), b.at(k, j));
    }
    SumScale(g.cols, a.at(i, k), Terms(g, bt, i, k), Across(f, k));
    Commutes(Times(g, bt).at(i, k), a.at(i, k), 0.0);
  }

  /** `<g, a b>` is `<g bT, a>`. */
  lemma MoveRight(g: Matrix, a: Matrix, b: Matrix)
    requires g.rows == a.rows && g.cols == b.cols && a.cols == b.rows
    ensures Inner(g, Times(a, b)) == Inner(Times(g, Turn(b, true)), a)
  {
    hide Prod;
    var gb := Times(g, Turn(b, true));
    forall i: nat | i < g.rows ensures Rows(g, Times(a, b))(i) == Rows(gb, a)(i) {
      var f := Summands(g, a, b, i);
      RowScale(g, a, b, i);
      SumSwap(f, g.cols, a.cols);
      forall k: nat | k < a.cols ensures Entries(gb, a, i)(k) == Line(Flip(f), g.cols)(k) {
        RowColumns(g, a, b, i, k);
      }
      RM.SumEqual(a.cols, Entries(gb, a, i), Line(Flip(f), g.cols));
    }
    RM.SumEqual(g.rows, Rows(g, Times(a, b)), Rows(gb, a));
  }

  lemma InnerTurned(a: Matrix, b: Matrix)
    requires Alike(a, b)
    ensures Inner(Turn(a, true), Turn(b, true)) == Inner(a, b)
  {
    hide Prod;
    var f := (i: nat, j: nat) => Prod(a.at(i, j), b.at(i, j));
    var at, bt := Turn(a, true), Turn(b, true);
    forall i: nat | i < a.rows ensures Rows(a, b)(i) == Line(f, a.cols)(i) {
      RM.SumEqual(a.cols, Entries(a, b, i), Across(f, i));
    }
    RM.SumEqual(a.rows, Rows(a, b), Line(f, a.cols));
    SumSwap(f, a.rows, a.cols);
    forall j: nat | j < a.cols ensures Rows(at, bt)(j) == Line(Flip(f), a.rows)(j) {
      RM.SumEqual(a.rows, Entries(at, bt, j), Across(Flip(f), j));
    }
    RM.SumEqual(a.cols, Rows(at, bt), Line(Flip(f), a.rows));
  }

  lemma InnerSame(a: Matrix, a': Matrix, b: Matrix, b': Matrix)
    requires Same(a, a') && Same(b, b') && Alike(a, b)
    ensures Inner(a, b) == Inner(a', b')
  {
    hide Prod;
    forall i: nat | i < a.rows ensures Rows(a, b)(i) == Rows(a', b')(i) {
      RM.SumEqual(a.cols, Entries(a, b, i), Entries(a', b', i));
    }
    RM.SumEqual(a.rows, Rows(a, b), Rows(a', b'));
  }

  /** The transpose of a product. */
  lemma TurnedTimes(a: Matrix, b: Matrix)
    requires a.cols == b.rows
    ensures Same(Turn(Times(a, b), true), Times(Turn(b, true), Turn(a, true)))
  {
    hide Prod;
    var at, bt := Turn(a, true), Turn(b, true);
    forall i: nat, j: nat | i < b.cols && j < a.rows
      ensures Turn(Times(a, b), true).at(i, j) == Times(bt, at).at(i, j)
    {
      forall k: nat | k < a.cols ensures Terms(a, b, j, i)(k) == Terms(bt, at, i, j)(k) {
        Commutes(a.at(j, k), b.at(k, i), 0.0);
      }
      RM.SumEqual(a.cols, Terms(a, b, j, i), Terms(bt, at, i, j));
    }
  }

  lemma TimesSame(a: Matrix, a': Matrix, b: Matrix, b': Matrix)
    requires Same(a, a') && Same(b, b') && a.cols == b.rows
    ensures Same(Times(a, b), Times(a', b'))
  {
    hide Prod;
    forall i: nat, j: nat | i < a.rows && j < b.cols ensures Times(a, b).at(i, j) == Times(a', b').at(i, j) {
      RM.SumEqual(a.cols, Terms(a, b, i, j), Terms(a', b', i, j));
    }
  }

  /** `<g, a b>` is `<aT g, b>`. */
  lemma MoveLeft(g: Matrix, a: Matrix, b: Matrix)
    requires g.rows == a.rows && g.cols == b.cols && a.cols == b.rows
    ensures Inner(g, Times(a, b)) == Inner(Times(Turn(a, true), g), b)
  {
    hide Prod, Inner;
    var gt, at, bt := Turn(g, true), Turn(a, true), Turn(b, true);
    InnerTurned(g, Times(a, b));
    TurnedTimes(a, b);
    InnerSame(gt, gt, Turn(Times(a, b), true), Times(bt, at));
    MoveRight(gt, bt, at);
    TurnedTimes(at, g);
    assert Same(Turn(at, true), a);
    TimesSame(gt, gt, Turn(at, true), a);
    InnerSame(Times(gt, Turn(at, true)), Turn(Times(at, g), true), bt, bt);
    InnerTurned(Times(at, g), b);
  }

  lemma InnerScaled(x: real, a: Matrix, b: Matrix)
    requires Alike(a, b)
    ensures Inner(Scaled(x, a), b) == Prod(x, Inner(a, b)) && Inner(a, Scaled(x, b)) == Prod(x, Inner(a, b))
  {
    hide Prod;
    var sa, sb := Scaled(x, a), Scaled(x, b);
    forall i: nat | i < a.rows
      ensures Rows(sa, b)(i) == Prod(x, Rows(a, b)(i)) && Rows(a, sb)(i) == Prod(x, Rows(a, b)(i))
    {
      forall j: nat | j < a.cols
        ensures Entries(sa, b, i)(j) == Prod(x, Entries(a, b, i)(j))
        ensures Entries(a, sb, i)(j) == Prod(x, Entries(a, b, i)(j))
      {
        Commutes(x, a.at(i, j), b.at(i, j));
      }
      SumScale(a.cols, x, Entries(a, b, i), Entries(sa, b, i));
      SumScale(a.cols, x, Entries(a, b, i), Entries(a, sb, i));
    }
    SumScale(a.rows, x, Rows(a, b), Rows(sa, b));
    SumScale(a.rows, x, Rows(a, b), Rows(a, sb));
  }

  lemma InnerPlus(a: Matrix, b: Matrix, c: Matrix)
    requires Alike(a, b) && Alike(a, c)
    ensures Inner(a, Plus(b, c)) == Inner(a, b) + Inner(a, c)
  {
    hide Prod;
    var sum := Plus(b, c);
    forall i: nat | i < a.rows ensures Rows(a, sum)(i) == Rows(a, b)(i) + Rows(a, c)(i) {
      forall j: nat | j < a.cols ensures Entries(a, sum, i)(j) == Entries(a, b, i)(j) + Entries(a, c, i)(j) {
        Commutes(a.at(i, j), b.at(i, j), c.at(i, j));
      }
      RM.SumPlus(a.cols, Entries(a, b, i), Entries(a, c, i), Entries(a, sum, i));
    }
    RM.SumPlus(a.rows, Rows(a, b), Rows(a, c), Rows(a, sum));
  }

  // ---- Gemm ----

  /** A Gemm node: `alpha * op(a) * op(b) + beta * c`. */
  datatype Gemm = Gemm(a: ValueId, b: ValueId, c: ValueId, alpha: real, beta: real, transA: bool, transB: bool)
  {
    ghost function Run(env: ValueId -> Matrix): Matrix {
      Plus(Scaled(alpha, Times(Turn(env(a), transA), Turn(env(b), transB))), Scaled(beta, env(c)))
    }

    /** The two factors fit each other and the bias. */
    ghost predicate Fits(env: ValueId -> Matrix) {
      && Turn(env(a), transA).cols == Turn(env(b), transB).rows
      && env(c).rows == Turn(env(a), transA).rows && env(c).cols == Turn(env(b), transB).cols
    }

    /** The node that computes the gradient of `a`. */
    function GradA(gy: ValueId): Gemm {
      if transA then Gemm(b, gy, a, alpha, 0.0, transB, true)
      else Gemm(gy, b, a, alpha, 0.0, false, !transB)
    }

    /** The node that computes the gradient of `b`. */
    function GradB(gy: ValueId): Gemm {
      if transB then Gemm(gy, a, b, alpha, 0.0, true, transA)
      else Gemm(a, gy, b, alpha, 0.0, !transA, false)
    }

    /** The derivative of the node in the direction (da, db). */
    ghost function Derivative(env: ValueId -> Matrix, da: Matrix, db: Matrix): Matrix {
      Plus(Scaled(alpha, Times(Turn(da, transA), Turn(env(b), transB))),
           Scaled(alpha, Times(Turn(env(a), transA), Turn(db, transB))))
    }
  }

  /** With beta zero, the node is the scaled product. */
  lemma NoBias(n: Gemm, env: ValueId -> Matrix)
    requires n.beta == 0.0 && n.Fits(env)
    ensures Same(n.Run(env), Scaled(n.alpha, Times(Turn(env(n.a), n.transA), Turn(env(n.b), n.transB))))
  {
    hide Times;
    forall i: nat, j: nat ensures Prod(n.beta, env(n.c).at(i, j)) == 0.0 {
    }
  }

  /** What comes into the node: the gradient of its output. */
  ghost predicate Receives(n: Gemm, env: ValueId -> Matrix, gy: ValueId) {
    n.Fits(env) && env(gy).rows == Turn(env(n.a), n.transA).rows && env(gy).cols == Turn(env(n.b), n.transB).cols
  }

  lemma TurnTwice(m: Matrix, trans: bool)
    ensures Same(Turn(Turn(m, trans), true), Turn(m, !trans)) && Same(Turn(Turn(m, true), true), m)
  {
  }

  /** `alpha * gaTurned` is what the node for `a` computes, up to its own transposition. */
  lemma GradAIs(n: Gemm, env: ValueId -> Matrix, gy: ValueId)
    requires Receives(n, env, gy)
    ensures n.GradA(gy).Fits(env)
    ensures var g := Times(env(gy), Turn(Turn(env(n.b), n.transB), true));
      Same(n.GradA(gy).Run(env), Scaled(n.alpha, Turn(g, n.transA)))
  {
    hide Prod, Times;
    var b := Turn(env(n.b), n.transB);
    TimesSize(env(gy), Turn(b, true));
    TurnTwice(env(n.b), n.transB);
    TurnTwice(b, true);
    NoBias(n.GradA(gy), env);
    if n.transA {
      TurnedTimes(env(gy), Turn(b, true));
      TimesSame(Turn(Turn(b, true), true), b, Turn(env(gy), true), Turn(env(gy), true));
    } else {
      TimesSame(env(gy), env(gy), Turn(b, true), Turn(env(n.b), !n.transB));
    }
  }

  lemma TimesSize(a: Matrix, b: Matrix)
    ensures Times(a, b).rows == a.rows && Times(a, b).cols == b.cols
  {
  }

  lemma GradBIs(n: Gemm, env: ValueId -> Matrix, gy: ValueId)
    requires Receives(n, env, gy)
    ensures n.GradB(gy).Fits(env)
    ensures var g := Times(Turn(Turn(env(n.a), n.transA), true), env(gy));
      Same(n.GradB(gy).Run(env), Scaled(n.alpha, Turn(g, n.transB)))
  {
    hide Prod, Times;
    var a := Turn(env(n.a), n.transA);
    TimesSize(Turn(a, true), env(gy));
    TurnTwice(env(n.a), n.transA);
    TurnTwice(a, true);
    NoBias(n.GradB(gy), env);
    if n.transB {
      TurnedTimes(Turn(a, true), env(gy));
      TimesSame(Turn(env(gy), true), Turn(env(gy), true), Turn(Turn(a, true), true), a);
    } else {
      TimesSame(Turn(a, true), Turn(env(n.a), !n.transA), env(gy), env(gy));
    }
  }

  /** An inner product does not change when both sides are transposed. */
  lemma InnerEither(a: Matrix, d: Matrix, trans: bool)
    requires Alike(a, Turn(d, trans))
    ensures Inner(a, Turn(d, trans)) == Inner(Turn(a, trans), d)
  {
    hide Inner;
    if trans {
      InnerTurned(a, Turn(d, true));
      InnerSame(Turn(a, true), Turn(a, true), Turn(Turn(d, true), true), d);
    }
  }

  lemma GradAIsAdjoint(n: Gemm, env: ValueId -> Matrix, gy: ValueId, da: Matrix)
    requires Receives(n, env, gy) && Alike(da, env(n.a))
    ensures Inner(env(gy), Scaled(n.alpha, Times(Turn(da, n.transA), Turn(env(n.b), n.transB)))) ==
      Inner(n.GradA(gy).Run(env), da)
  {
    hide Prod, Inner, Times;
    var g, b, d := env(gy), Turn(env(n.b), n.transB), Turn(da, n.transA);
    var ga := Times(g, Turn(b, true));
    TimesSize(d, b);
    TimesSize(g, Turn(b, true));
    InnerScaled(n.alpha, g, Times(d, b));
    MoveRight(g, d, b);
    InnerEither(ga, da, n.transA);
    InnerScaled(n.alpha, Turn(ga, n.transA), da);
    GradAIs(n, env, gy);
    InnerSame(n.GradA(gy).Run(env), Scaled(n.alpha, Turn(ga, n.transA)), da, da);
  }

  lemma GradBIsAdjoint(n: Gemm, env: ValueId -> Matrix, gy: ValueId, db: Matrix)
    requires Receives(n, env, gy) && Alike(db, env(n.b))
    ensures Inner(env(gy), Scaled(n.alpha, Times(Turn(env(n.a), n.transA), Turn(db, n.transB)))) ==
      Inner(n.GradB(gy).Run(env), db)
  {
    hide Prod, Inner, Times;
    var g, a, d := env(gy), Turn(env(n.a), n.transA), Turn(db, n.transB);
    var gb := Times(Turn(a, true), g);
    TimesSize(a, d);
    TimesSize(Turn(a, true), g);
    InnerScaled(n.alpha, g, Times(a, d));
    MoveLeft(g, a, d);
    InnerEither(gb, db, n.transB);
    InnerScaled(n.alpha, Turn(gb, n.transB), db);
    GradBIs(n, env, gy);
    InnerSame(n.GradB(gy).Run(env), Scaled(n.alpha, Turn(gb, n.transB)), db, db);
  }

  /** For all sizes and all four transpositions the two nodes compute the adjoint of the derivative. */
  lemma GemmAdjoint(n: Gemm, env: ValueId -> Matrix, gy: ValueId, da: Matrix, db: Matrix)
    requires Receives(n, env, gy) && Alike(da, env(n.a)) && Alike(db, env(n.b))
    ensures n.GradA(gy).Fits(env) && n.GradB(gy).Fits(env)
    ensures Inner(env(gy), n.Derivative(env, da, db)) ==
      Inner(n.GradA(gy).Run(env), da) + Inner(n.GradB(gy).Run(env), db)
  {
    hide Prod, Inner, Times, n.Run;
    GradAIs(n, env, gy);
    GradBIs(n, env, gy);
    GradAIsAdjoint(n, env, gy, da);
    GradBIsAdjoint(n, env, gy, db);
    var first := Times(Turn(da, n.transA), Turn(env(n.b), n.transB));
    var second := Times(Turn(env(n.a), n.transA), Turn(db, n.transB));
    TimesSize(Turn(da, n.transA), Turn(env(n.b), n.transB));
    TimesSize(Turn(env(n.a), n.transA), Turn(db, n.transB));
    InnerPlus(env(gy), Scaled(n.alpha, first), Scaled(n.alpha, second));
  }

  lemma Expand(p: real, x: real, x': real, q: real, y: real, y': real)
    requires p == x + x' && q == y + y'
    ensures Prod(p, q) == (Prod(x, y) + Prod(x', y)) + (Prod(x, y') + Prod(x', y'))
  {
    hide Prod;
    Commutes(q, x, x');
    Commutes(x, y, y');
    Commutes(x', y, y');
  }

  lemma TermsExpand(a: Matrix, a': Matrix, b: Matrix, b': Matrix, i: nat, j: nat, k: nat)
    ensures Terms(Plus(a, a'), Plus(b, b'), i, j)(k) == (Terms(a, b, i, j)(k) + Terms(a', b, i, j)(k))
      + (Terms(a, b', i, j)(k) + Terms(a', b', i, j)(k))
  {
    hide Prod;
    var p, q := Plus(a, a').at(i, k), Plus(b, b').at(k, j);
    assert Terms(Plus(a, a'), Plus(b, b'), i, j)(k) == Prod(p, q);
    Expand(p, a.at(i, k), a'.at(i, k), q, b.at(k, j), b'.at(k, j));
  }

  lemma TimesPlus(a: Matrix, a': Matrix, b: Matrix, b': Matrix)
    requires Alike(a, a') && Alike(b, b') && a.cols == b.rows
    ensures Same(Times(Plus(a, a'), Plus(b, b')),
                 Plus(Plus(Times(a, b), Times(a', b)), Plus(Times(a, b'), Times(a', b'))))
  {
    hide Prod;
    var sa, sb := Plus(a, a'), Plus(b, b');
    forall i: nat, j: nat | i < a.rows && j < b.cols
      ensures Times(sa, sb).at(i, j) == Times(a, b).at(i, j) + Times(a', b).at(i, j) +
        (Times(a, b').at(i, j) + Times(a', b').at(i, j))
    {
      var first, second := (k: nat) => Terms(a, b, i, j)(k) + Terms(a', b, i, j)(k),
        (k: nat) => Terms(a, b', i, j)(k) + Terms(a', b', i, j)(k);
      forall k: nat | k < a.cols ensures Terms(sa, sb, i, j)(k) == first(k) + second(k) {
        TermsExpand(a, a', b, b', i, j, k);
      }
      RM.SumPlus(a.cols, Terms(a, b, i, j), Terms(a', b, i, j), first);
      RM.SumPlus(a.cols, Terms(a, b', i, j), Terms(a', b', i, j), second);
      RM.SumPlus(a.cols, first, second, Terms(sa, sb, i, j));
    }
  }

  /** The derivative is the part of the node that is linear in the change: the whole change is
      exactly the derivative and a product of both changes. */
  lemma DerivativeIsLinearPart(n: Gemm, env: ValueId -> Matrix, env': ValueId -> Matrix, da: Matrix, db: Matrix)
    requires n.Fits(env) && Alike(da, env(n.a)) && Alike(db, env(n.b))
    requires env'(n.a) == Plus(env(n.a), da) && env'(n.b) == Plus(env(n.b), db) && env'(n.c) == env(n.c)
    ensures Same(n.Run(env'), Plus(Plus(n.Run(env), n.Derivative(env, da, db)),
                                   Scaled(n.alpha, Times(Turn(da, n.transA), Turn(db, n.transB)))))
  {
    hide Prod, Times;
    var a, b, d, e := Turn(env(n.a), n.transA), Turn(env(n.b), n.transB), Turn(da, n.transA), Turn(db, n.transB);
    TimesPlus(a, d, b, e);
    TimesSame(Turn(env'(n.a), n.transA), Plus(a, d), Turn(env'(n.b), n.transB), Plus(b, e));
    TimesSize(Turn(env'(n.a), n.transA), Turn(env'(n.b), n.transB));
    TimesSize(a, b);
    forall i: nat, j: nat | i < a.rows && j < b.cols
      ensures n.Run(env').at(i, j) == n.Run(env).at(i, j) + n.Derivative(env, da, db).at(i, j) +
        Prod(n.alpha, Times(d, e).at(i, j))
    {
      var p, q, r, t := Times(a, b).at(i, j), Times(d, b).at(i, j), Times(a, e).at(i, j), Times(d, e).at(i, j);
      assert Times(Turn(env'(n.a), n.transA), Turn(env'(n.b), n.transB)).at(i, j) == p + q + (r + t);
      Commutes(n.alpha, p + q, r + t);
      Commutes(n.alpha, p, q);
      Commutes(n.alpha, r, t);
    }
  }
}
