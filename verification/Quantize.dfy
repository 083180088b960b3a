/** Q4.12 fixed point: rounding to codes and back, its exact error range, and how far quantising the value matrix
    can move the hidden states. */
module Quantize {
  import opened Sums
  import opened Attention
  import opened Matrices
  import opened Softmax
  import Adam

  const SCALE := 4096.0
  const LOWEST := -32768
  const HIGHEST := 32767

  /** To the nearest integer, a tie to the even one. */
  function RoundHalfEven(x: real): int {
    var below := x.Floor;
    var rest := x - below as real;
    if rest < 0.5 then below
    else if rest > 0.5 then below + 1
    else if below % 2 == 0 then below
    else below + 1
  }

  function QuantizeEntry(value: real): int {
    var code := RoundHalfEven(value * SCALE);
    var capped := if HIGHEST < code then HIGHEST else code;
    if capped < LOWEST then LOWEST else capped
  }

  function DequantizeEntry(code: int): real {
    code as real / SCALE
  }

  type Codes = seq<seq<int>>

  function QuantizeMatrix(m: Matrix): Codes {
    seq(|m|, (i: int) requires 0 <= i < |m| =>
      seq(|m[i]|, (j: int) requires 0 <= j < |m[i]| => QuantizeEntry(m[i][j])))
  }

  function DequantizeMatrix(m: Codes): Matrix {
    seq(|m|, (i: int) requires 0 <= i < |m| =>
      seq(|m[i]|, (j: int) requires 0 <= j < |m[i]| => DequantizeEntry(m[i][j])))
  }

  predicate IsCode(c: int) { LOWEST <= c <= HIGHEST }

  lemma RoundingError(x: real)
    ensures -0.5 <= RoundHalfEven(x) as real - x <= 0.5
  {
  }

  /** Every code survives the trip through the reals. */
  lemma CodesSurvive(c: int)
    requires IsCode(c)
    ensures QuantizeEntry(DequantizeEntry(c)) == c
  {
    assert DequantizeEntry(c) * SCALE == c as real;
  }

  lemma MatrixOfCodesSurvives(m: Codes)
    requires forall i, j :: 0 <= i < |m| && 0 <= j < |m[i]| ==> IsCode(m[i][j])
    ensures QuantizeMatrix(DequantizeMatrix(m)) == m
  {
    var back := QuantizeMatrix(DequantizeMatrix(m));
    forall i | 0 <= i < |m| ensures back[i] == m[i] {
      forall j | 0 <= j < |m[i]| ensures back[i][j] == m[i][j] {
        CodesSurvive(m[i][j]);
      }
    }
  }

  lemma ErrorInCodes(value: real, c: int)
    ensures (DequantizeEntry(c) - value) * SCALE == c as real - value * SCALE
  {
  }

  /** The rounding error is at most half a step exactly on the representable range, ends included. */
  lemma ErrorWithinHalfStep(value: real)
    ensures Adam.Abs(DequantizeEntry(QuantizeEntry(value)) - value) <= 1.0 / 8192.0
       <==> -32768.5 <= value * SCALE <= 32767.5
  {
    var c := QuantizeEntry(value);
    ErrorInCodes(value, c);
    RoundingError(value * SCALE);
  }

  /** No code is nearer than the chosen one, in range or not. */
  lemma NearestCode(value: real, c: int)
    requires IsCode(c)
    ensures IsCode(QuantizeEntry(value))
    ensures Adam.Abs(DequantizeEntry(QuantizeEntry(value)) - value) <= Adam.Abs(DequantizeEntry(c) - value)
  {
    var x, chosen := value * SCALE, QuantizeEntry(value);
    ErrorInCodes(value, chosen);
    ErrorInCodes(value, c);
    RoundingError(x);
    NearestInteger(x, c);
  }

  lemma {:induction false} NearestInteger(x: real, c: int)
    ensures Adam.Abs(RoundHalfEven(x) as real - x) <= Adam.Abs(c as real - x)
  {
    RoundingError(x);
    var r := RoundHalfEven(x);
    if c < r {
      assert c as real <= r as real - 1.0;
    } else if c > r {
      assert c as real >= r as real + 1.0;
    }
  }

  /** Half way between two codes, the even one is chosen. */
  lemma TieGoesToEven(value: real, c: int)
    requires -32768 <= c < 32767 && value * 4096.0 == c as real + 0.5
    ensures QuantizeEntry(value) == if c % 2 == 0 then c else c + 1
  {
    assert (value * SCALE).Floor == c;
  }

  // ---- effect on the hidden states ----

  /** A hidden entry is a weighted mean of the cached values, so it lies between any bounds they share. */
  lemma HiddenInHull(p: Problem, w: Params, v: Entries, lo: real, hi: real, i: nat, dim: int)
    requires IsExp(p.exp) && i < p.n
    requires forall l :: 0 <= l <= i ==> lo <= v(l, dim) <= hi
    ensures lo <= Prod(p.n, Weight(p, w), v, i, dim) <= hi
  {
    var a := Weight(p, w);
    RowIsDistribution(p.exp, Score(p.e, p.scale, Query(p, w), Key(p, w)), i);
    MaskedSum(p.n, a, v, i, dim);
    MeanInHull(i + 1, a, v, lo, hi, i, dim);
  }

  /** Masked columns do not contribute. */
  lemma MaskedSum(n: nat, a: Entries, v: Entries, i: nat, dim: int)
    requires i < n && forall l :: i < l < n ==> a(i, l) == 0.0
    ensures Prod(n, a, v, i, dim) == Prod(i + 1, a, v, i, dim)
  {
    var f: int -> real := (l: int) => Times(a(i, l), v(l, dim));
    forall l | i + 1 <= l < n ensures f(l) == 0.0 {
      TimesZero(v(l, dim));
    }
    SumTail(i + 1, n, f);
  }

  lemma MeanInHull(n: nat, a: Entries, v: Entries, lo: real, hi: real, i: int, dim: int)
    requires RowSum(n, a, i) == 1.0
    requires forall l :: 0 <= l < n ==> a(i, l) > 0.0 && lo <= v(l, dim) <= hi
    ensures lo <= Prod(n, a, v, i, dim) <= hi
  {
    var f: int -> real := (l: int) => Times(a(i, l), v(l, dim));
    var row: int -> real := (l: int) => a(i, l);
    var below: int -> real := (l: int) => Times(lo, a(i, l));
    var above: int -> real := (l: int) => Times(hi, a(i, l));
    forall l | 0 <= l < n ensures below(l) <= f(l) <= above(l) {
      Between(lo, v(l, dim), hi, a(i, l));
    }
    SumLe(n, below, f);
    SumLe(n, f, above);
    SumScale(n, lo, row, below);
    SumScale(n, hi, row, above);
    assert RowSum(n, a, i) == Sum(n, row);
    TimesOne(lo);
    TimesOne(hi);
  }

  lemma Between(lo: real, v: real, hi: real, a: real)
    requires lo <= v <= hi && a > 0.0
    ensures Times(lo, a) <= Times(a, v) <= Times(hi, a)
  {
    assert (v - lo) * a >= 0.0 && (hi - v) * a >= 0.0;
  }

  /** Sum of the absolute values of one input row. */
  function AbsRow(d: nat, x: Entries, i: int): real {
    Sum(d, (l: int) => Adam.Abs(x(i, l)))
  }

  lemma {:induction false} AbsOfSum(n: nat, f: int -> real, g: int -> real)
    requires forall i :: 0 <= i < n ==> Adam.Abs(f(i)) <= g(i)
    ensures Adam.Abs(Sum(n, f)) <= Sum(n, g)
  {
    if n > 0 {
      AbsOfSum(n - 1, f, g);
    }
  }

  lemma AbsOfProduct(a: real, b: real, bound: real)
    requires Adam.Abs(b) <= bound
    ensures Adam.Abs(Times(a, b)) <= Times(bound, Adam.Abs(a))
  {
    var c := Adam.Abs(a);
    Adam.NonNegativeTimes(bound - b, c);
    Adam.NonNegativeTimes(bound + b, c);
    Distribute(c, bound, b);
    Distribute(c, bound, -b);
    Negate(b, a);
    Negate(b, c);
    Commute(a, b);
  }

  /** Moving every weight of wv by at most delta moves a value by at most delta times its input's absolute sum. */
  lemma ValueDrift(p: Problem, move: Entries, delta: real, l: int, dim: int)
    requires forall k :: 0 <= k < p.d ==> Adam.Abs(move(k, dim)) <= delta
    ensures Adam.Abs(Prod(p.d, p.x, move, l, dim)) <= Times(delta, AbsRow(p.d, p.x, l))
  {
    var f: int -> real := (k: int) => Times(p.x(l, k), move(k, dim));
    var g: int -> real := (k: int) => Times(delta, Adam.Abs(p.x(l, k)));
    forall k | 0 <= k < p.d ensures Adam.Abs(f(k)) <= g(k) {
      AbsOfProduct(p.x(l, k), move(k, dim), delta);
    }
    AbsOfSum(p.d, f, g);
    SumScale(p.d, delta, (k: int) => Adam.Abs(p.x(l, k)), g);
  }

  /** Moving wv by move moves the hidden states by the attention applied to x move. */
  lemma HiddenDriftIs(p: Problem, w: Params, move: Entries, i: int, dim: int)
    requires 0 <= dim
    ensures Hidden(p, w.(wv := Plus(w.wv, move)))(i, dim)
         == Hidden(p, w)(i, dim) + Prod(p.n, Weight(p, w), Mul(p.d, p.x, move), i, dim)
  {
    var w' := w.(wv := Plus(w.wv, move));
    var a, v, v', dv := Weight(p, w), Value(p, w), Value(p, w'), Mul(p.d, p.x, move);
    assert Weight(p, w') == a;
    var vs := Plus(v, dv);
    forall l ensures v'(l, dim) == vs(l, dim) {
      MulAddRight(p.d, p.x, w.wv, move, l, dim);
    }
    SumExt(p.n, (l: int) => Times(a(i, l), v'(l, dim)), (l: int) => Times(a(i, l), vs(l, dim)));
    MulAddRight(p.n, a, v, dv, i, dim);
  }

  /** How far one quantised entry is from the original. */
  function Drift(m: Matrix): Entries {
    var q := DequantizeMatrix(QuantizeMatrix(m));
    (k: int, c: int) => At(q, k, c) - At(m, k, c)
  }

  lemma DriftIsSmall(m: Matrix, k: int, c: int)
    requires forall i, j :: 0 <= i < |m| && 0 <= j < |m[i]| ==> -32768.5 <= m[i][j] * SCALE <= 32767.5
    ensures Adam.Abs(Drift(m)(k, c)) <= 1.0 / 8192.0
  {
    if 0 <= k < |m| && 0 <= c < |m[k]| {
      ErrorWithinHalfStep(m[k][c]);
    }
  }

  lemma CachedDrift(p: Problem, move: Entries, delta: real, bound: real, l: int, dim: int)
    requires delta >= 0.0 && AbsRow(p.d, p.x, l) <= bound
    requires forall k :: 0 <= k < p.d ==> Adam.Abs(move(k, dim)) <= delta
    ensures -Times(delta, bound) <= Prod(p.d, p.x, move, l, dim) <= Times(delta, bound)
  {
    ValueDrift(p, move, delta, l, dim);
    Adam.Monotone(AbsRow(p.d, p.x, l), bound, delta);
    Commute(delta, bound);
    Commute(delta, AbsRow(p.d, p.x, l));
  }

  /** Main result on quantisation: if every wv entry is in range, rounding wv alone moves no hidden entry of row i by
      more than 1/8192 times the largest absolute sum among the input rows it attends to. */
  lemma QuantisedValuesDrift(p: Problem, w: Params, wv: Matrix, bound: real, i: nat, dim: nat)
    requires IsExp(p.exp) && i < p.n && w.wv == EntriesOf(wv)
    requires forall k, c :: 0 <= k < |wv| && 0 <= c < |wv[k]| ==> -32768.5 <= wv[k][c] * SCALE <= 32767.5
    requires forall l :: 0 <= l <= i ==> AbsRow(p.d, p.x, l) <= bound
    ensures var quantised := EntriesOf(DequantizeMatrix(QuantizeMatrix(wv)));
      Adam.Abs(Hidden(p, w.(wv := quantised))(i, dim) - Hidden(p, w)(i, dim)) <= Times(1.0 / 8192.0, bound)
  {
    var delta, move := 1.0 / 8192.0, Drift(wv);
    var quantised := EntriesOf(DequantizeMatrix(QuantizeMatrix(wv)));
    forall k ensures Adam.Abs(move(k, dim)) <= delta {
      DriftIsSmall(wv, k, dim);
    }
    var dv := Mul(p.d, p.x, move);
    forall l | 0 <= l <= i ensures -Times(delta, bound) <= dv(l, dim) <= Times(delta, bound) {
      CachedDrift(p, move, delta, bound, l, dim);
    }
    HiddenInHull(p, w, dv, -Times(delta, bound), Times(delta, bound), i, dim);
    HiddenDriftIs(p, w, move, i, dim);
    SameHidden(p, w, quantised, Plus(w.wv, move), i, dim);
  }

  lemma SameHidden(p: Problem, w: Params, wv: Entries, wv': Entries, i: int, dim: int)
    requires forall k :: wv(k, dim) == wv'(k, dim)
    ensures Hidden(p, w.(wv := wv))(i, dim) == Hidden(p, w.(wv := wv'))(i, dim)
  {
    var v, v', a := Value(p, w.(wv := wv)), Value(p, w.(wv := wv')), Weight(p, w);
    assert Weight(p, w.(wv := wv)) == a && Weight(p, w.(wv := wv')) == a;
    forall l ensures v(l, dim) == v'(l, dim) {
      SumExt(p.d, (k: int) => Times(p.x(l, k), wv(k, dim)), (k: int) => Times(p.x(l, k), wv'(k, dim)));
    }
    SumExt(p.n, (l: int) => Times(a(i, l), v(l, dim)), (l: int) => Times(a(i, l), v'(l, dim)));
  }
}
