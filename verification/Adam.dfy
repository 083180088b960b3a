/** The first Adam step: what it does to one entry, and why it lowers the loss when applied to the output matrix. */
module Adam {
  import opened Sums
  import opened Attention
  import opened Softmax
  import opened Descent
  import Gradients

  ghost predicate SqrtLaw(sqrt: real -> real, x: real) {
    x >= 0.0 ==> sqrt(x) >= 0.0 && sqrt(x) * sqrt(x) == x
  }

  ghost predicate IsSqrt(sqrt: real -> real) {
    forall x :: SqrtLaw(sqrt, x)
  }

  function Abs(x: real): real {
    if x < 0.0 then -x else x
  }

  /** Both moments start at zero and both biases are corrected, as the probe does. */
  function AdamEntry(
    sqrt: real -> real, learningRate: real, beta1: real, beta2: real, epsilon: real, value: real, grad: real): real
    requires beta1 != 1.0 && beta2 != 1.0
  {
    var moment := Times(1.0 - beta1, grad);
    var velocity := Times(Times(1.0 - beta2, grad), grad);
    var momentHat := Over(moment, 1.0 - beta1);
    var velocityHat := Over(velocity, 1.0 - beta2);
    value - Over(Times(learningRate, momentHat), sqrt(velocityHat) + epsilon)
  }

  /** How far one entry moves against its gradient. */
  function Step(learningRate: real, epsilon: real, grad: real): real {
    Over(Times(learningRate, grad), Abs(grad) + epsilon)
  }

  lemma DivideBack(c: real, x: real)
    requires c != 0.0
    ensures Over(Times(c, x), c) == x
  {
    Commute(c, x);
    OverUnique(Times(c, x), c, x);
  }

  lemma SquareRootOfSquare(sqrt: real -> real, g: real, s: real)
    requires IsSqrt(sqrt) && s == g * g
    ensures sqrt(s) == Abs(g)
  {
    NonNegativeSquare(g, s);
    assert SqrtLaw(sqrt, s);
    EqualSquares(sqrt(s), Abs(g));
  }

  lemma NonNegativeSquare(g: real, s: real)
    requires s == g * g
    ensures s >= 0.0
  {
  }

  lemma EqualSquares(a: real, b: real)
    requires a >= 0.0 && b >= 0.0 && a * a == b * b
    ensures a == b
  {
    assert (a - b) * (a + b) == 0.0;
    if a + b == 0.0 {
    } else {
      assert a - b == 0.0;
    }
  }

  /** The bias corrections cancel: the first step is learning rate times gradient over its size. */
  lemma {:induction false} AdamEntryIsStep(
    sqrt: real -> real, learningRate: real, beta1: real, beta2: real, epsilon: real, value: real, grad: real)
    requires IsSqrt(sqrt) && beta1 != 1.0 && beta2 != 1.0
    ensures AdamEntry(sqrt, learningRate, beta1, beta2, epsilon, value, grad)
         == value - Step(learningRate, epsilon, grad)
  {
    Reassociate(1.0 - beta2, grad, grad);
    DivideBack(1.0 - beta2, Times(grad, grad));
    SquareRootOfSquare(sqrt, grad, Times(grad, grad));
    DivideBack(1.0 - beta1, grad);
  }

  /** Each entry moves against its gradient, by less than the learning rate. */
  lemma StepIsBounded(learningRate: real, epsilon: real, grad: real)
    requires learningRate > 0.0 && epsilon > 0.0
    ensures Abs(Step(learningRate, epsilon, grad)) < learningRate
    ensures grad > 0.0 ==> Step(learningRate, epsilon, grad) > 0.0
    ensures grad < 0.0 ==> Step(learningRate, epsilon, grad) < 0.0
    ensures grad == 0.0 ==> Step(learningRate, epsilon, grad) == 0.0
  {
    var d, s, n := Abs(grad) + epsilon, Step(learningRate, epsilon, grad), Times(learningRate, grad);
    OverTimes(n, d);
    SignOfProduct(learningRate, grad, n);
    SignOfQuotient(n, d, s);
    Distribute(learningRate, Abs(grad), epsilon);
    Magnitude(learningRate, grad, n);
    SmallQuotient(n, d, s, learningRate, epsilon);
  }

  /** The step in plain numbers: times the size of the gradient plus epsilon, it is the learning rate times the
      gradient. */
  lemma StepTimesSize(learningRate: real, epsilon: real, grad: real)
    requires Abs(grad) + epsilon != 0.0
    ensures Times(Step(learningRate, epsilon, grad), Abs(grad) + epsilon) == Times(learningRate, grad)
  {
    OverTimes(Times(learningRate, grad), Abs(grad) + epsilon);
  }

  lemma SignOfProduct(a: real, b: real, c: real)
    requires a > 0.0 && c == Times(a, b)
    ensures (c > 0.0 <==> b > 0.0) && (c < 0.0 <==> b < 0.0)
  {
  }

  lemma SignOfQuotient(n: real, d: real, s: real)
    requires d > 0.0 && n == Times(s, d)
    ensures (s > 0.0 <==> n > 0.0) && (s < 0.0 <==> n < 0.0)
  {
  }

  lemma Magnitude(a: real, b: real, c: real)
    requires a > 0.0 && c == Times(a, b)
    ensures Abs(c) == Times(a, Abs(b))
  {
  }

  lemma SmallQuotient(n: real, d: real, s: real, bound: real, slack: real)
    requires d > 0.0 && bound > 0.0 && slack > 0.0 && n == Times(s, d)
    requires Times(bound, d) == Abs(n) + Times(bound, slack)
    ensures Abs(s) < bound
  {
    PositiveTimes(bound, slack);
    assert Times(Abs(s), d) == Abs(n);
    assert (bound - Abs(s)) * d > 0.0;
  }

  // ---- Cauchy-Schwarz ----

  lemma LargerSquare(x: real, y: real)
    requires x >= 0.0 && Times(y, y) <= Times(x, x)
    ensures y <= x
  {
    if y > x {
      PositiveTimes(y - x, y + x);
      DifferenceOfSquares(x, y, Times(y - x, y + x));
    }
  }

  lemma DifferenceOfSquares(x: real, y: real, d: real)
    requires d == Times(y - x, y + x)
    ensures Times(y, y) - Times(x, x) == d
  {
  }

  /** If s^2 <= A B then 2 s (a b) <= A b^2 + B a^2: compare squares, as (x + y)^2 >= 4 x y. */
  lemma CrossTerm(s: real, A: real, B: real, a: real, b: real)
    requires A >= 0.0 && B >= 0.0 && Times(s, s) <= Times(A, B)
    ensures 2.0 * Times(s, Times(a, b)) <= Times(A, Times(b, b)) + Times(B, Times(a, a))
  {
    var c := Times(a, b);
    var x, y := Times(A, Times(b, b)), Times(B, Times(a, a));
    NonNegativeSquare(a, Times(a, a));
    NonNegativeSquare(b, Times(b, b));
    NonNegativeTimes(A, Times(b, b));
    NonNegativeTimes(B, Times(a, a));
    var t := 2.0 * Times(s, c);
    SquareOfTwice(s, c, t);
    Interleave(A, B, a, b);
    NonNegativeSquare(c, Times(c, c));
    Monotone(Times(s, s), Times(A, B), Times(c, c));
    FourProducts(x, y, x + y);
    LargerSquare(x + y, t);
  }

  lemma NonNegativeTimes(a: real, b: real)
    requires a >= 0.0 && b >= 0.0
    ensures Times(a, b) >= 0.0
  {
  }

  lemma Monotone(a: real, b: real, c: real)
    requires a <= b && c >= 0.0
    ensures Times(a, c) <= Times(b, c)
  {
    assert (b - a) * c >= 0.0;
  }

  lemma SquareOfTwice(s: real, c: real, t: real)
    requires t == 2.0 * Times(s, c)
    ensures Times(t, t) == 4.0 * Times(Times(s, s), Times(c, c))
  {
    assert t * t == 4.0 * ((s * c) * (s * c));
    assert (s * c) * (s * c) == (s * s) * (c * c);
  }

  lemma Interleave(A: real, B: real, a: real, b: real)
    ensures Times(Times(A, B), Times(Times(a, b), Times(a, b))) == Times(Times(A, Times(b, b)), Times(B, Times(a, a)))
  {
    assert (A * B) * ((a * b) * (a * b)) == (A * (b * b)) * (B * (a * a));
  }

  lemma FourProducts(x: real, y: real, s: real)
    requires s == x + y
    ensures 4.0 * Times(x, y) <= Times(s, s)
  {
    NonNegativeSquare(x - y, (x - y) * (x - y));
    assert s * s - 4.0 * (x * y) == (x - y) * (x - y);
  }

  lemma GrowProducts(s: real, A: real, B: real, a: real, b: real)
    requires A >= 0.0 && B >= 0.0 && Times(s, s) <= Times(A, B)
    ensures var s' := s + Times(a, b);
      Times(s', s') <= Times(A + Times(a, a), B + Times(b, b))
  {
    var c := Times(a, b);
    CrossTerm(s, A, B, a, b);
    Distribute(s + c, s, c);
    Distribute(s, s, c);
    Distribute(c, s, c);
    Commute(s, c);
    var aa, bb := Times(a, a), Times(b, b);
    Distribute(A + aa, B, bb);
    Distribute(B, A, aa);
    Distribute(bb, A, aa);
    Commute(B, aa);
    Interleave(1.0, 1.0, a, b);
    SquareOfProduct(a, b);
  }

  lemma SquareOfProduct(a: real, b: real)
    ensures Times(Times(a, b), Times(a, b)) == Times(Times(a, a), Times(b, b))
  {
    assert (a * b) * (a * b) == (a * a) * (b * b);
  }

  lemma {:induction false} CauchySchwarz(
      n: nat, f: int -> real, g: int -> real, ff: int -> real, gg: int -> real, fg: int -> real)
    requires forall i :: 0 <= i < n ==>
      ff(i) == Times(f(i), f(i)) && gg(i) == Times(g(i), g(i)) && fg(i) == Times(f(i), g(i))
    ensures Sum(n, ff) >= 0.0 && Sum(n, gg) >= 0.0
    ensures Times(Sum(n, fg), Sum(n, fg)) <= Times(Sum(n, ff), Sum(n, gg))
  {
    if n > 0 {
      CauchySchwarz(n - 1, f, g, ff, gg, fg);
      GrowProducts(Sum(n - 1, fg), Sum(n - 1, ff), Sum(n - 1, gg), f(n - 1), g(n - 1));
      NonNegativeSquare(f(n - 1), ff(n - 1));
      NonNegativeSquare(g(n - 1), gg(n - 1));
    }
  }

  /** Sum of products of rows and columns factors. */
  lemma SumOfProducts(m: nat, n: nat, r: int -> real, c: int -> real, f: Entries)
    requires forall i, j :: 0 <= i < m && 0 <= j < n ==> f(i, j) == Times(r(i), c(j))
    ensures Sum(m, (i: int) => RowSum(n, f, i)) == Times(Sum(m, r), Sum(n, c))
  {
    var t := Sum(n, c);
    forall i | 0 <= i < m ensures RowSum(n, f, i) == Times(t, r(i)) {
      SumScale(n, r(i), c, (j: int) => f(i, j));
      Commute(r(i), t);
    }
    SumScale(m, t, r, (i: int) => RowSum(n, f, i));
    Commute(t, Sum(m, r));
  }

  /** The Frobenius norm is submultiplicative. */
  lemma NormOfProduct(m: nat, k: nat, n: nat, a: Entries, b: Entries)
    ensures SquaredNorm(m, n, Mul(k, a, b)) <= Times(SquaredNorm(m, k, a), SquaredNorm(k, n, b))
  {
    var ab, ta := Mul(k, a, b), Flip(b);
    var r: int -> real := (i: int) => RowInner(k, a, a, i);
    var c: int -> real := (j: int) => RowInner(k, ta, ta, j);
    var f: Entries := (i: int, j: int) => Times(r(i), c(j));
    forall i | 0 <= i < m ensures RowInner(n, ab, ab, i) <= RowSum(n, f, i) {
      forall j | 0 <= j < n ensures Times(ab(i, j), ab(i, j)) <= f(i, j) {
        EntryOfProduct(k, a, b, i, j);
      }
      SumLe(n, (j: int) => Times(ab(i, j), ab(i, j)), (j: int) => f(i, j));
    }
    SumLe(m, (i: int) => RowInner(n, ab, ab, i), (i: int) => RowSum(n, f, i));
    SumOfProducts(m, n, r, c, f);
    InnerFlip(k, n, b, b);
  }

  lemma EntryOfProduct(k: nat, a: Entries, b: Entries, i: int, j: int)
    ensures Times(Prod(k, a, b, i, j), Prod(k, a, b, i, j))
      <= Times(RowInner(k, a, a, i), RowInner(k, Flip(b), Flip(b), j))
  {
    var tb := Flip(b);
    CauchySchwarz(k, (l: int) => a(i, l), (l: int) => b(l, j), (l: int) => Times(a(i, l), a(i, l)),
      (l: int) => Times(tb(j, l), tb(j, l)), (l: int) => Times(a(i, l), b(l, j)));
  }

  // ---- one step on wo ----

  /** What the step does to a whole matrix. */
  function AdamMove(learningRate: real, epsilon: real, g: Entries): Entries {
    (i: int, j: int) => -Step(learningRate, epsilon, g(i, j))
  }

  /** Squared gradient, each entry over its size plus epsilon: the drop per unit of learning rate. */
  function Drop(epsilon: real, g: Entries): Entries {
    (i: int, j: int) => Over(Times(g(i, j), g(i, j)), Abs(g(i, j)) + epsilon)
  }

  function DropSum(m: nat, n: nat, epsilon: real, g: Entries): real {
    Sum(m, (i: int) => RowSum(n, Drop(epsilon, g), i))
  }

  lemma StepAlongGradient(lr: real, eps: real, g: real)
    requires eps > 0.0
    ensures Times(g, -Step(lr, eps, g)) == Times(-lr, Over(Times(g, g), Abs(g) + eps))
  {
    var d := Abs(g) + eps;
    Negate(g, Step(lr, eps, g));
    Negate(lr, Over(Times(g, g), d));
    Commute(lr, g);
    Reassociate(lr, g, g);
    MoveDivision(g, lr, d);
    MoveDivision(g, g, d);
    Commute(g, Step(lr, eps, g));
    Reassociate(lr, Over(g, d), g);
    Commute(lr, Over(g, d));
    Reassociate(Over(g, d), lr, g);
    Commute(lr, Times(Over(g, d), g));
    Reassociate(Over(g, d), g, lr);
  }

  lemma DropIsNonNegative(eps: real, g: real)
    requires eps > 0.0
    ensures Over(Times(g, g), Abs(g) + eps) >= 0.0
    ensures g != 0.0 ==> Over(Times(g, g), Abs(g) + eps) > 0.0
  {
    var d, q := Abs(g) + eps, Over(Times(g, g), Abs(g) + eps);
    OverTimes(Times(g, g), d);
    NonNegativeSquare(g, Times(g, g));
    SignOfQuotient(Times(g, g), d, q);
    if g > 0.0 {
      PositiveTimes(g, g);
    } else if g < 0.0 {
      Negate(g, g);
      PositiveTimes(-g, -g);
    }
  }

  /** The squared step is at most (lr^2 / epsilon) times the drop. */
  lemma StepSquared(lr: real, eps: real, g: real)
    requires eps > 0.0
    ensures Times(eps, Times(-Step(lr, eps, g), -Step(lr, eps, g)))
      <= Times(Times(lr, lr), Over(Times(g, g), Abs(g) + eps))
  {
    var d := Abs(g) + eps;
    var r, q := Over(g, d), Over(Times(g, g), d);
    DropIsNonNegative(eps, g);
    Commute(lr, g);
    MoveDivision(g, lr, d);
    MoveDivision(g, g, d);
    OverTimes(g, d);
    var s := Step(lr, eps, g);
    assert s == Times(r, lr);
    Negate(s, s);
    SquareOfProduct(r, lr);
    SmallShare(r, g, eps, d, q);
    NonNegativeSquare(lr, Times(lr, lr));
    Monotone(Times(eps, Times(r, r)), q, Times(lr, lr));
    Reassociate(eps, Times(r, r), Times(lr, lr));
    Commute(q, Times(lr, lr));
  }

  lemma SmallShare(r: real, g: real, eps: real, d: real, q: real)
    requires eps > 0.0 && d == Abs(g) + eps && Times(r, d) == g && q == Times(r, g)
    ensures Times(eps, Times(r, r)) <= q
  {
    var rr := Times(r, r);
    NonNegativeSquare(r, rr);
    assert q == r * (r * d);
    assert r * (r * d) == rr * d;
    Monotone(eps, d, rr);
  }

  lemma MoveAlongGradient(m: nat, n: nat, lr: real, eps: real, g: Entries)
    requires eps > 0.0
    ensures Inner(m, n, g, AdamMove(lr, eps, g)) == Times(-lr, DropSum(m, n, eps, g))
  {
    var mv, dr := AdamMove(lr, eps, g), Drop(eps, g);
    forall i ensures RowInner(n, g, mv, i) == Times(-lr, RowSum(n, dr, i)) {
      forall j ensures Times(g(i, j), mv(i, j)) == Times(-lr, dr(i, j)) {
        StepAlongGradient(lr, eps, g(i, j));
      }
      SumScale(n, -lr, (j: int) => dr(i, j), (j: int) => Times(g(i, j), mv(i, j)));
    }
    SumScale(m, -lr, (i: int) => RowSum(n, dr, i), (i: int) => RowInner(n, g, mv, i));
  }

  lemma MoveIsShort(m: nat, n: nat, lr: real, eps: real, g: Entries)
    requires eps > 0.0
    ensures Times(eps, SquaredNorm(m, n, AdamMove(lr, eps, g))) <= Times(Times(lr, lr), DropSum(m, n, eps, g))
  {
    var mv, dr, c := AdamMove(lr, eps, g), Drop(eps, g), Times(lr, lr);
    forall i ensures Times(eps, RowInner(n, mv, mv, i)) <= Times(c, RowSum(n, dr, i)) {
      forall j ensures Times(eps, Times(mv(i, j), mv(i, j))) <= Times(c, dr(i, j)) {
        StepSquared(lr, eps, g(i, j));
      }
      var f: int -> real := (j: int) => Times(eps, Times(mv(i, j), mv(i, j)));
      var h: int -> real := (j: int) => Times(c, dr(i, j));
      SumLe(n, f, h);
      SumScale(n, eps, (j: int) => Times(mv(i, j), mv(i, j)), f);
      SumScale(n, c, (j: int) => dr(i, j), h);
    }
    var f: int -> real := (i: int) => Times(eps, RowInner(n, mv, mv, i));
    var h: int -> real := (i: int) => Times(c, RowSum(n, dr, i));
    SumLe(m, f, h);
    SumScale(m, eps, (i: int) => RowInner(n, mv, mv, i), f);
    SumScale(m, c, (i: int) => RowSum(n, dr, i), h);
  }

  lemma DropSumNonNegative(m: nat, n: nat, eps: real, g: Entries)
    requires eps > 0.0
    ensures DropSum(m, n, eps, g) >= 0.0
  {
    var dr := Drop(eps, g);
    forall i ensures RowSum(n, dr, i) >= 0.0 {
      forall j ensures dr(i, j) >= 0.0 {
        DropIsNonNegative(eps, g(i, j));
      }
      SumNonNegative(n, (j: int) => dr(i, j));
    }
    SumNonNegative(m, (i: int) => RowSum(n, dr, i));
  }

  lemma DropSumPositive(m: nat, n: nat, eps: real, g: Entries, row: int, col: int)
    requires eps > 0.0 && 0 <= row < m && 0 <= col < n && g(row, col) != 0.0
    ensures DropSum(m, n, eps, g) > 0.0
  {
    var dr := Drop(eps, g);
    forall i ensures RowSum(n, dr, i) >= 0.0 {
      forall j ensures dr(i, j) >= 0.0 {
        DropIsNonNegative(eps, g(i, j));
      }
      SumNonNegative(n, (j: int) => dr(i, j));
    }
    forall j ensures dr(row, j) >= 0.0 {
      DropIsNonNegative(eps, g(row, j));
    }
    DropIsNonNegative(eps, g(row, col));
    SumPositive(n, (j: int) => dr(row, j), col);
    SumPositive(m, (i: int) => RowSum(n, dr, i), row);
  }

  /** The quadratic term is too small to undo the linear one. */
  lemma Outweighed(lr: real, eps: real, c: real, s: real, norm: real, move: real, shift: real)
    requires lr > 0.0 && eps > 0.0 && c > 0.0 && s > 0.0 && norm >= 0.0
    requires shift <= Times(norm, move)
    requires Times(eps, move) <= Times(Times(lr, lr), s)
    requires Times(lr, norm) < 2.0 * Times(c, eps)
    ensures Times(-lr, s) + Over(Times(0.5, shift), c) < 0.0
  {
    var ls, ln := Times(lr, s), Times(lr, norm);
    PositiveTimes(lr, s);
    Monotone(Times(eps, move), Times(Times(lr, lr), s), norm);
    assert (lr * lr * s) * norm == ln * ls;
    Monotone(shift, Times(norm, move), eps);
    assert (norm * move) * eps == (eps * move) * norm;
    assert Times(shift, eps) <= Times(ln, ls);
    StrictMonotone(ln, 2.0 * Times(c, eps), ls);
    assert (2.0 * (c * eps)) * ls == (2.0 * c * ls) * eps;
    CancelPositive(shift, 2.0 * Times(c, ls), eps);
    HalfOver(shift, c, ls);
    Negate(lr, s);
  }

  lemma StrictMonotone(a: real, b: real, c: real)
    requires a < b && c > 0.0
    ensures Times(a, c) < Times(b, c)
  {
    assert (b - a) * c > 0.0;
  }

  lemma CancelPositive(a: real, b: real, c: real)
    requires c > 0.0 && Times(a, c) < Times(b, c)
    ensures a < b
  {
    if a >= b {
      Monotone(b, a, c);
    }
  }

  lemma HalfOver(a: real, c: real, b: real)
    requires c > 0.0 && a < 2.0 * Times(c, b)
    ensures Over(Times(0.5, a), c) < b
  {
    var q := Over(Times(0.5, a), c);
    OverTimes(Times(0.5, a), c);
    Commute(c, b);
    CancelPositive(q, b, c);
  }

  lemma SquaredNormNonNegative(m: nat, n: nat, a: Entries)
    ensures SquaredNorm(m, n, a) >= 0.0
  {
    forall i ensures RowInner(n, a, a, i) >= 0.0 {
      forall j ensures Times(a(i, j), a(i, j)) >= 0.0 {
        NonNegativeSquare(a(i, j), Times(a(i, j), a(i, j)));
      }
      SumNonNegative(n, (j: int) => Times(a(i, j), a(i, j)));
    }
    SumNonNegative(m, (i: int) => RowInner(n, a, a, i));
  }

  /** Main result: one Adam step on wo strictly lowers the loss, if its gradient is not zero and the learning rate
      is small against epsilon. */
  lemma AdamLowersLoss(p: Problem, w: Params, lr: real, eps: real, row: int, col: int)
    requires p.n > 0 && p.o > 0 && lr > 0.0 && eps > 0.0
    requires 0 <= row < p.h && 0 <= col < p.o && Gradient(p, w).wo(row, col) != 0.0
    requires Times(lr, SquaredNorm(p.n, p.h, Hidden(p, w))) < 2.0 * Times(Count(p), eps)
    ensures Loss(p, w.(wo := Plus(w.wo, AdamMove(lr, eps, Gradient(p, w).wo)))) < Loss(p, w)
  {
    var g := Gradient(p, w).wo;
    var mv := AdamMove(lr, eps, g);
    WoGradientIsExact(p, w, mv);
    MoveAlongGradient(p.h, p.o, lr, eps, g);
    MoveIsShort(p.h, p.o, lr, eps, g);
    DropSumPositive(p.h, p.o, eps, g, row, col);
    NormOfProduct(p.n, p.h, p.o, Hidden(p, w), mv);
    SquaredNormNonNegative(p.n, p.h, Hidden(p, w));
    Gradients.CountPositive(p);
    Outweighed(lr, eps, Count(p), DropSum(p.h, p.o, eps, g), SquaredNorm(p.n, p.h, Hidden(p, w)),
      SquaredNorm(p.h, p.o, mv), SquaredNorm(p.n, p.o, OutputShiftByWo(p, w, mv)));
  }
}
