/** The causal softmax: its rows, its shift invariance, its derivative and the adjoint of that derivative. */
module Softmax {
  import opened Sums
  import opened Attention

  lemma ExpShift(exp: real -> real, a: real, m: real)
    requires IsExp(exp)
    ensures exp(m) > 0.0 && exp(a) > 0.0 && exp(a - m) > 0.0 && Times(exp(a - m), exp(m)) == exp(a)
  {
    assert ExpLaw(exp, a, m) && ExpLaw(exp, m, m) && ExpLaw(exp, a - m, m);
  }

  lemma ExpsPositive(exp: real -> real, s: Entries)
    requires IsExp(exp)
    ensures forall i, j :: Exps(exp, s)(i, j) > 0.0
  {
    forall i, j ensures Exps(exp, s)(i, j) > 0.0 {
      ExpShift(exp, s(i, j), 0.0);
    }
  }

  lemma NormaliserPositive(exp: real -> real, s: Entries, i: nat)
    requires IsExp(exp)
    ensures Normaliser(exp, s, i) > 0.0
  {
    ExpsPositive(exp, s);
    SumPositive(i + 1, (j: int) => Exps(exp, s)(i, j), 0);
  }

  /** Dividing each term of a sum divides the sum. */
  lemma SumOver(n: nat, f: int -> real, c: real, g: int -> real)
    requires c != 0.0
    requires forall i :: 0 <= i < n ==> g(i) == Over(f(i), c)
    ensures Sum(n, g) == Over(Sum(n, f), c)
  {
    var r := 1.0 / c;
    forall i | 0 <= i < n ensures g(i) == Times(r, f(i)) {
      Reciprocal(f(i), c);
    }
    SumScale(n, r, f, g);
    Reciprocal(Sum(n, f), c);
  }

  lemma Reciprocal(a: real, c: real)
    requires c != 0.0
    ensures Over(a, c) == Times(1.0 / c, a)
  {
  }

  /** Every row of the attention is a probability distribution over the columns it may see. */
  lemma RowIsDistribution(exp: real -> real, s: Entries, i: nat)
    requires IsExp(exp)
    ensures forall j :: 0 <= j <= i ==> CausalSoftmax(exp, s)(i, j) > 0.0
    ensures RowSum(i + 1, CausalSoftmax(exp, s), i) == 1.0
  {
    var z, u, a := Normaliser(exp, s, i), Exps(exp, s), CausalSoftmax(exp, s);
    NormaliserPositive(exp, s, i);
    ExpsPositive(exp, s);
    forall j | 0 <= j <= i ensures a(i, j) == Over(u(i, j), z) && a(i, j) > 0.0 {
      PositiveQuotient(u(i, j), z);
    }
    SumOver(i + 1, (j: int) => u(i, j), z, (j: int) => a(i, j));
    assert RowSum(i + 1, a, i) == Over(RowSum(i + 1, u, i), z);
    assert z / z == 1.0;
  }

  lemma PositiveQuotient(a: real, b: real)
    requires a > 0.0 && b > 0.0
    ensures Over(a, b) > 0.0
  {
  }

  lemma OverUnique(w: real, y: real, x: real)
    requires y != 0.0 && Times(x, y) == w
    ensures Over(w, y) == x
  {
    assert (Over(w, y) - x) * y == 0.0;
  }

  lemma OverTimes(w: real, y: real)
    requires y != 0.0
    ensures Times(Over(w, y), y) == w
  {
  }

  lemma CancelFactor(a: real, b: real, c: real)
    requires b != 0.0 && c != 0.0
    ensures Over(Times(c, a), Times(c, b)) == Over(a, b)
  {
    var q := Over(a, b);
    OverTimes(a, b);
    Reassociate(q, c, b);
    OverUnique(Times(c, a), Times(c, b), q);
  }

  lemma ShiftedNormaliser(exp: real -> real, s: Entries, shifted: Entries, m: real, i: nat)
    requires IsExp(exp)
    requires forall j :: 0 <= j <= i ==> shifted(i, j) == s(i, j) - m
    ensures forall j :: 0 <= j <= i ==> Exps(exp, s)(i, j) == Times(exp(m), Exps(exp, shifted)(i, j))
    ensures Normaliser(exp, s, i) == Times(exp(m), Normaliser(exp, shifted, i))
  {
    var u, u' := Exps(exp, s), Exps(exp, shifted);
    forall j | 0 <= j <= i ensures u(i, j) == Times(exp(m), u'(i, j)) {
      ExpShift(exp, s(i, j), m);
    }
    SumScale(i + 1, exp(m), (j: int) => u'(i, j), (j: int) => u(i, j));
  }

  /** Subtracting one number from every score of a row leaves the softmax of the row unchanged. */
  lemma ShiftInvariance(exp: real -> real, s: Entries, shifted: Entries, m: real, i: nat)
    requires IsExp(exp)
    requires forall j :: 0 <= j <= i ==> shifted(i, j) == s(i, j) - m
    ensures forall j :: 0 <= j <= i ==> CausalSoftmax(exp, shifted)(i, j) == CausalSoftmax(exp, s)(i, j)
  {
    ShiftedNormaliser(exp, s, shifted, m, i);
    NormaliserPositive(exp, shifted, i);
    ExpShift(exp, m, m);
    forall j | 0 <= j <= i ensures CausalSoftmax(exp, shifted)(i, j) == CausalSoftmax(exp, s)(i, j) {
      CancelFactor(Exps(exp, shifted)(i, j), Normaliser(exp, shifted, i), exp(m));
    }
  }

  // ---- derivative ----

  /** The Jacobian of the softmax of each row, applied to a change ts of the scores. */
  function SoftmaxTangent(a: Entries, ts: Entries): Entries {
    (i: int, j: int) => if 0 <= j <= i then Times(a(i, j), ts(i, j) - RowInner(i + 1, a, ts, i)) else 0.0
  }

  /** Dual numbers with values v and derivatives t, entry by entry. */
  ghost predicate Parts(m: int, n: int, a: DualEntries, v: Entries, t: Entries) {
    forall i, j :: 0 <= i < m && 0 <= j < n ==> a(i, j) == Dual(v(i, j), t(i, j))
  }

  lemma {:induction false} DSumParts(n: nat, f: int -> Dual, v: int -> real, t: int -> real)
    requires forall i :: 0 <= i < n ==> f(i) == Dual(v(i), t(i))
    ensures DSum(n, f) == Dual(Sum(n, v), Sum(n, t))
  {
    if n > 0 {
      DSumParts(n - 1, f, v, t);
    }
  }

  lemma QuotientRule(u: real, z: real, du: real, dz: real)
    requires z > 0.0
    ensures Over(Times(du, z) - Times(u, dz), Times(z, z)) == Over(du, z) - Times(Over(u, z), Over(dz, z))
  {
    var a, b, c := Over(du, z), Over(u, z), Over(dz, z);
    OverTimes(du, z);
    OverTimes(u, z);
    OverTimes(dz, z);
    QuotientRuleProduct(a, b, c, z);
    PositiveTimes(z, z);
    OverUnique(Times(du, z) - Times(u, dz), Times(z, z), a - Times(b, c));
  }

  lemma PositiveTimes(a: real, b: real)
    requires a > 0.0 && b > 0.0
    ensures Times(a, b) > 0.0
  {
  }

  lemma QuotientRuleProduct(a: real, b: real, c: real, z: real)
    ensures Times(a - Times(b, c), Times(z, z)) == Times(Times(a, z), z) - Times(Times(b, z), Times(c, z))
  {
    calc {
      (a - b * c) * (z * z);
      a * z * z - (b * z) * (c * z);
    }
  }

  /** The mean of ts - tm under a distribution is the mean of ts, less tm. */
  lemma MeanShift(n: nat, a: Entries, ts: Entries, tm: real, i: int, f: int -> real)
    requires RowSum(n, a, i) == 1.0
    requires forall j :: 0 <= j < n ==> f(j) == Times(a(i, j), ts(i, j) - tm)
    ensures Sum(n, f) == RowInner(n, a, ts, i) - tm
  {
    var g: int -> real := (j: int) => Times(tm, a(i, j));
    SumScale(n, tm, (j: int) => a(i, j), g);
    forall j | 0 <= j < n ensures Times(a(i, j), ts(i, j)) == f(j) + g(j) {
      Distribute(a(i, j), ts(i, j) - tm, tm);
      Commute(a(i, j), tm);
    }
    SumAdd(n, f, g, (j: int) => Times(a(i, j), ts(i, j)));
    assert RowSum(n, a, i) == Sum(n, (j: int) => a(i, j));
  }

  /** The exponentials of one row of dual scores, and their sum. */
  lemma DualExps(
      exp: real -> real, s: DualEntries, t: Entries, shift: int -> Dual, shifted: Entries, i: nat, du: int -> real)
    requires forall j :: 0 <= j <= i ==> s(i, j) == Dual(shifted(i, j) + shift(i).v, t(i, j))
    requires forall j :: 0 <= j <= i ==> du(j) == Times(Exps(exp, shifted)(i, j), t(i, j) - shift(i).t)
    ensures forall j :: 0 <= j <= i ==> DShiftedExp(exp, s, shift, i, j) == Dual(Exps(exp, shifted)(i, j), du(j))
    ensures DNormaliser(exp, s, shift, i) == Dual(Normaliser(exp, shifted, i), Sum(i + 1, du))
  {
    var u := Exps(exp, shifted);
    forall j | 0 <= j <= i ensures DShiftedExp(exp, s, shift, i, j) == Dual(u(i, j), du(j)) {
      assert s(i, j).v - shift(i).v == shifted(i, j);
    }
    DSumParts(i + 1, (j: int) => DShiftedExp(exp, s, shift, i, j), (j: int) => u(i, j), du);
  }

  /** The derivative of the normaliser, relative to it. */
  lemma NormaliserTangent(exp: real -> real, shifted: Entries, t: Entries, tm: real, i: nat, du: int -> real)
    requires IsExp(exp)
    requires forall j :: 0 <= j <= i ==> du(j) == Times(Exps(exp, shifted)(i, j), t(i, j) - tm)
    ensures Normaliser(exp, shifted, i) > 0.0
    ensures forall j :: 0 <= j <= i ==>
      Over(du(j), Normaliser(exp, shifted, i)) == Times(CausalSoftmax(exp, shifted)(i, j), t(i, j) - tm)
    ensures Over(Sum(i + 1, du), Normaliser(exp, shifted, i)) == RowInner(i + 1, CausalSoftmax(exp, shifted), t, i) - tm
  {
    var z, a, u := Normaliser(exp, shifted, i), CausalSoftmax(exp, shifted), Exps(exp, shifted);
    NormaliserPositive(exp, shifted, i);
    RowIsDistribution(exp, shifted, i);
    var da: int -> real := (j: int) => Over(du(j), z);
    SumOver(i + 1, du, z, da);
    forall j | 0 <= j <= i ensures da(j) == Times(a(i, j), t(i, j) - tm) {
      MoveDivision(u(i, j), t(i, j) - tm, z);
    }
    MeanShift(i + 1, a, t, tm, i, da);
  }

  lemma TangentExt(a: Entries, b: Entries, t: Entries, i: nat)
    requires forall j :: 0 <= j <= i ==> a(i, j) == b(i, j)
    ensures forall j :: 0 <= j <= i ==> SoftmaxTangent(a, t)(i, j) == SoftmaxTangent(b, t)(i, j)
  {
    SumExt(i + 1, (j: int) => Times(a(i, j), t(i, j)), (j: int) => Times(b(i, j), t(i, j)));
    assert RowInner(i + 1, a, t, i) == RowInner(i + 1, b, t, i);
  }

  /** One row of the dual softmax: whatever was subtracted, value and derivative are those of the plain softmax. */
  lemma DualSoftmaxRow(exp: real -> real, s: DualEntries, v: Entries, t: Entries, shift: int -> Dual, i: nat)
    requires IsExp(exp)
    requires forall j :: 0 <= j <= i ==> s(i, j) == Dual(v(i, j), t(i, j))
    ensures forall j :: 0 <= j <= i ==>
      DSoftmax(exp, s, shift)(i, j) == Dual(CausalSoftmax(exp, v)(i, j), SoftmaxTangent(CausalSoftmax(exp, v), t)(i, j))
  {
    var m := shift(i);
    var shifted: Entries := (r: int, c: int) => v(r, c) - m.v;
    ShiftInvariance(exp, v, shifted, m.v, i);
    TangentExt(CausalSoftmax(exp, shifted), CausalSoftmax(exp, v), t, i);
    DualShiftedRow(exp, s, shifted, t, shift, i);
  }

  lemma DualShiftedRow(exp: real -> real, s: DualEntries, shifted: Entries, t: Entries, shift: int -> Dual, i: nat)
    requires IsExp(exp)
    requires forall j :: 0 <= j <= i ==> s(i, j) == Dual(shifted(i, j) + shift(i).v, t(i, j))
    ensures forall j :: 0 <= j <= i ==>
      DSoftmax(exp, s, shift)(i, j)
        == Dual(CausalSoftmax(exp, shifted)(i, j), SoftmaxTangent(CausalSoftmax(exp, shifted), t)(i, j))
  {
    var tm, u := shift(i).t, Exps(exp, shifted);
    var du: int -> real := (j: int) => Times(u(i, j), t(i, j) - tm);
    DualExps(exp, s, t, shift, shifted, i, du);
    NormaliserTangent(exp, shifted, t, tm, i, du);
    forall j | 0 <= j <= i
      ensures DSoftmax(exp, s, shift)(i, j)
           == Dual(CausalSoftmax(exp, shifted)(i, j), SoftmaxTangent(CausalSoftmax(exp, shifted), t)(i, j))
    {
      DualSoftmaxAt(exp, s, shifted, t, shift, i, j, du);
    }
  }

  lemma DualSoftmaxAt(
    exp: real -> real, s: DualEntries, shifted: Entries, t: Entries, shift: int -> Dual, i: nat, j: nat,
      du: int -> real)
    requires j <= i
    requires DShiftedExp(exp, s, shift, i, j) == Dual(Exps(exp, shifted)(i, j), du(j))
    requires DNormaliser(exp, s, shift, i) == Dual(Normaliser(exp, shifted, i), Sum(i + 1, du))
    requires Normaliser(exp, shifted, i) > 0.0
    requires Over(du(j), Normaliser(exp, shifted, i)) == Times(CausalSoftmax(exp, shifted)(i, j), t(i, j) - shift(i).t)
    requires Over(Sum(i + 1, du), Normaliser(exp, shifted, i))
      == RowInner(i + 1, CausalSoftmax(exp, shifted), t, i) - shift(i).t
    ensures DSoftmax(exp, s, shift)(i, j)
         == Dual(CausalSoftmax(exp, shifted)(i, j), SoftmaxTangent(CausalSoftmax(exp, shifted), t)(i, j))
  {
    var z, a := Normaliser(exp, shifted, i), CausalSoftmax(exp, shifted);
    DualSoftmaxEntry(Exps(exp, shifted)(i, j), z, du(j), Sum(i + 1, du), a(i, j), t(i, j), shift(i).t,
                     RowInner(i + 1, a, t, i));
  }

  lemma MoveDivision(u: real, c: real, z: real)
    requires z != 0.0
    ensures Over(Times(u, c), z) == Times(Over(u, z), c)
  {
    OverTimes(u, z);
    Reassociate(Over(u, z), c, z);
    OverUnique(Times(u, c), z, Times(Over(u, z), c));
  }

  lemma DualSoftmaxEntry(u: real, z: real, du: real, dz: real, a: real, t: real, tm: real, mean: real)
    requires z > 0.0 && a == Over(u, z) && Over(du, z) == Times(a, t - tm) && Over(dz, z) == mean - tm
    ensures DOver(Dual(u, du), Dual(z, dz)) == Dual(a, Times(a, t - mean))
  {
    QuotientRule(u, z, du, dz);
    Distribute(a, t - mean, mean - tm);
  }

  // ---- adjoint ----

  lemma PullOut(n: nat, f: Entries, g: Entries, i: int, c: real, h: int -> real)
    requires forall j :: 0 <= j < n ==> h(j) == Times(c, Times(f(i, j), g(i, j)))
    ensures Sum(n, h) == Times(c, RowInner(n, f, g, i))
  {
    SumScale(n, c, (j: int) => Times(f(i, j), g(i, j)), h);
  }

  function Weighted(a: Entries, w: Entries): Entries {
    (i: int, j: int) => Times(a(i, j), w(i, j))
  }

  /** Sum over a row of w_j a_j (y_j - c) equals sum of a_j w_j y_j, less c times sum of w_j a_j. */
  lemma CentredRow(n: nat, w: Entries, a: Entries, y: Entries, c: real, i: int, f: int -> real)
    requires forall j :: 0 <= j < n ==> f(j) == Times(w(i, j), Times(a(i, j), y(i, j) - c))
    ensures Sum(n, f) == RowInner(n, Weighted(a, w), y, i) - Times(c, RowInner(n, w, a, i))
  {
    var g: int -> real := (j: int) => Times(c, Times(w(i, j), a(i, j)));
    PullOut(n, w, a, i, c, g);
    var aw := Weighted(a, w);
    forall j | 0 <= j < n ensures Times(aw(i, j), y(i, j)) == f(j) + g(j) {
      CentredTerm(w(i, j), a(i, j), y(i, j), c);
    }
    SumAdd(n, f, g, (j: int) => Times(aw(i, j), y(i, j)));
  }

  lemma CentredTerm(w: real, a: real, y: real, c: real)
    ensures Times(Times(a, w), y) == Times(w, Times(a, y - c)) + Times(c, Times(w, a))
  {
    Distribute(a, y - c, c);
    Distribute(w, Times(a, y - c), Times(a, c));
    Reassociate(w, a, y);
    Reassociate(c, w, a);
    Commute(a, w);
    Commute(a, c);
    Reassociate(w, a, c);
  }

  lemma SwapRowInner(n: nat, a: Entries, b: Entries, i: int)
    ensures RowInner(n, a, b, i) == RowInner(n, b, a, i)
  {
    forall j ensures Times(a(i, j), b(i, j)) == Times(b(i, j), a(i, j)) {
      Commute(a(i, j), b(i, j));
    }
    SumExt(n, (j: int) => Times(a(i, j), b(i, j)), (j: int) => Times(b(i, j), a(i, j)));
  }

  lemma SwapWeighted(n: nat, a: Entries, b: Entries, c: Entries, i: int)
    ensures RowInner(n, Weighted(a, b), c, i) == RowInner(n, Weighted(a, c), b, i)
  {
    var ab, ac := Weighted(a, b), Weighted(a, c);
    forall j ensures Times(ab(i, j), c(i, j)) == Times(ac(i, j), b(i, j)) {
      Reassociate(a(i, j), b(i, j), c(i, j));
    }
    SumExt(n, (j: int) => Times(ab(i, j), c(i, j)), (j: int) => Times(ac(i, j), b(i, j)));
  }

  /** Row i of w . (a (y - c)), where everything beyond column i is zero. */
  lemma MaskedRow(n: nat, w: Entries, a: Entries, y: Entries, c: real, masked: Entries, i: nat, f: int -> real)
    requires i < n
    requires forall j :: masked(i, j) == if 0 <= j <= i then Times(a(i, j), y(i, j) - c) else 0.0
    requires forall j :: f(j) == Times(w(i, j), masked(i, j))
    ensures Sum(n, f) == RowInner(i + 1, Weighted(a, w), y, i) - Times(c, RowInner(i + 1, w, a, i))
  {
    forall j | i + 1 <= j < n ensures f(j) == 0.0 {
      assert masked(i, j) == 0.0;
    }
    SumTail(i + 1, n, f);
    forall j | 0 <= j < i + 1 ensures f(j) == Times(w(i, j), Times(a(i, j), y(i, j) - c)) {
      assert masked(i, j) == Times(a(i, j), y(i, j) - c);
    }
    CentredRow(i + 1, w, a, y, c, i, f);
  }

  lemma TangentRow(n: nat, a: Entries, da: Entries, ts: Entries, i: nat)
    requires i < n
    ensures RowInner(n, da, SoftmaxTangent(a, ts), i)
         == RowInner(i + 1, Weighted(a, da), ts, i) - Times(RowInner(i + 1, a, ts, i), RowInner(i + 1, da, a, i))
  {
    var masked := SoftmaxTangent(a, ts);
    MaskedRow(n, da, a, ts, RowInner(i + 1, a, ts, i), masked, i, (j: int) => Times(da(i, j), masked(i, j)));
  }

  lemma GradRow(n: nat, a: Entries, da: Entries, ts: Entries, i: nat)
    requires i < n
    ensures RowInner(n, ts, SoftmaxGrad(a, da), i)
         == RowInner(i + 1, Weighted(a, ts), da, i) - Times(RowInner(i + 1, da, a, i), RowInner(i + 1, ts, a, i))
  {
    var masked := SoftmaxGrad(a, da);
    MaskedRow(n, ts, a, da, RowInner(i + 1, da, a, i), masked, i, (j: int) => Times(ts(i, j), masked(i, j)));
  }

  lemma SoftmaxAdjointRow(n: nat, a: Entries, da: Entries, ts: Entries, i: nat)
    requires i < n
    ensures RowInner(n, da, SoftmaxTangent(a, ts), i) == RowInner(n, SoftmaxGrad(a, da), ts, i)
  {
    TangentRow(n, a, da, ts, i);
    GradRow(n, a, da, ts, i);
    SwapWeighted(i + 1, a, da, ts, i);
    SwapRowInner(i + 1, a, ts, i);
    SwapRowInner(n, ts, SoftmaxGrad(a, da), i);
  }

  /** The score gradient is the adjoint of the softmax Jacobian. */
  lemma SoftmaxAdjoint(n: nat, a: Entries, da: Entries, ts: Entries)
    ensures Inner(n, n, da, SoftmaxTangent(a, ts)) == Inner(n, n, SoftmaxGrad(a, da), ts)
  {
    var tangent, grad := SoftmaxTangent(a, ts), SoftmaxGrad(a, da);
    forall i | 0 <= i < n ensures RowInner(n, da, tangent, i) == RowInner(n, grad, ts, i) {
      SoftmaxAdjointRow(n, a, da, ts, i);
    }
    SumExt(n, (i: int) => RowInner(n, da, tangent, i), (i: int) => RowInner(n, grad, ts, i));
  }

  /** Each row of the score gradient sums to zero: moving all scores of a row together changes nothing. */
  lemma ScoreGradRowSumsToZero(exp: real -> real, s: Entries, da: Entries, n: nat, i: nat)
    requires IsExp(exp) && i < n
    ensures RowSum(n, SoftmaxGrad(CausalSoftmax(exp, s), da), i) == 0.0
  {
    var a := CausalSoftmax(exp, s);
    RowIsDistribution(exp, s, i);
    ZeroRow(a, da, n, i);
  }

  lemma ZeroRow(a: Entries, da: Entries, n: nat, i: nat)
    requires i < n && RowSum(i + 1, a, i) == 1.0
    ensures RowSum(n, SoftmaxGrad(a, da), i) == 0.0
  {
    var grad := SoftmaxGrad(a, da);
    var c := RowInner(i + 1, da, a, i);
    var f: int -> real := (j: int) => grad(i, j);
    SumTail(i + 1, n, f);
    MeanShift(i + 1, a, da, c, i, f);
    SwapRowInner(i + 1, a, da, i);
  }
}
