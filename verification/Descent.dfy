/** The loss as an exact quadratic in the output matrix and in the value matrix, and the central differences that the
    probe compares with its gradient. */
module Descent {
  import opened Sums
  import opened Attention
  import opened Softmax
  import opened Gradients

  /** Squared Frobenius norm. */
  function SquaredNorm(m: nat, n: nat, a: Entries): real {
    Inner(m, n, a, a)
  }

  // ---- the loss is quadratic in the output ----

  lemma HalfSquareExpansion(r: real, e: real)
    ensures Times(Times(0.5, r + e), r + e) == Times(Times(0.5, r), r) + Times(e, r) + Times(e, Times(0.5, e))
  {
  }

  lemma RowExpansion(p: Problem, y: Entries, e: Entries, y': Entries, i: int)
    requires forall j :: 0 <= j < p.o ==> y'(i, j) == y(i, j) + e(i, j)
    ensures RowSum(p.o, HalfSquare(y', p.target), i)
         == RowSum(p.o, HalfSquare(y, p.target), i) + RowInner(p.o, e, Residual(p, y), i)
           + RowInner(p.o, e, Scaled(0.5, e), i)
  {
    var f, f', r, h := HalfSquare(y, p.target), HalfSquare(y', p.target), Residual(p, y), Scaled(0.5, e);
    var g: int -> real := (j: int) => f(i, j) + Times(e(i, j), r(i, j));
    forall j | 0 <= j < p.o ensures f'(i, j) == g(j) + Times(e(i, j), h(i, j)) {
      HalfSquareExpansion(r(i, j), e(i, j));
      assert y'(i, j) - p.target(i, j) == r(i, j) + e(i, j);
    }
    SumAdd(p.o, g, (j: int) => Times(e(i, j), h(i, j)), (j: int) => f'(i, j));
    SumAdd(p.o, (j: int) => f(i, j), (j: int) => Times(e(i, j), r(i, j)), g);
  }

  lemma SquareSumExpansion(p: Problem, y: Entries, e: Entries, y': Entries)
    requires Agree(p.n, p.o, y', Plus(y, e))
    ensures Sum(p.n, (i: int) => RowSum(p.o, HalfSquare(y', p.target), i))
         == Sum(p.n, (i: int) => RowSum(p.o, HalfSquare(y, p.target), i))
          + Inner(p.n, p.o, e, Residual(p, y)) + Inner(p.n, p.o, e, Scaled(0.5, e))
  {
    var f, f', r, h := HalfSquare(y, p.target), HalfSquare(y', p.target), Residual(p, y), Scaled(0.5, e);
    var ye := Plus(y, e);
    var g: int -> real := (i: int) => RowSum(p.o, f, i) + RowInner(p.o, e, r, i);
    forall i | 0 <= i < p.n ensures RowSum(p.o, f', i) == g(i) + RowInner(p.o, e, h, i) {
      forall j | 0 <= j < p.o ensures y'(i, j) == y(i, j) + e(i, j) {
        assert y'(i, j) == ye(i, j);
      }
      RowExpansion(p, y, e, y', i);
    }
    SumAdd(p.n, g, (i: int) => RowInner(p.o, e, h, i), (i: int) => RowSum(p.o, f', i));
    SumAdd(p.n, (i: int) => RowSum(p.o, f, i), (i: int) => RowInner(p.o, e, r, i), g);
  }

  lemma OverAdd(a: real, b: real, c: real, d: real)
    requires d != 0.0
    ensures Over(a + b + c, d) == Over(a, d) + Over(b, d) + Over(c, d)
  {
  }

  /** Moving the output by e changes the loss by its gradient there, plus a square. */
  lemma MeanSquareExpansion(p: Problem, y: Entries, e: Entries, y': Entries)
    requires p.n > 0 && p.o > 0
    requires Agree(p.n, p.o, y', Plus(y, e))
    ensures MeanSquare(p, y')
         == MeanSquare(p, y) + Inner(p.n, p.o, OutputGrad(p, y), e)
           + Over(Times(0.5, SquaredNorm(p.n, p.o, e)), Count(p))
  {
    SquareSumExpansion(p, y, e, y');
    InnerScale(p.n, p.o, e, 0.5, e);
    OutputGradIsScaled(p, y, e);
    InnerComm(p.n, p.o, e, Residual(p, y));
    OverAdd(Sum(p.n, (i: int) => RowSum(p.o, HalfSquare(y, p.target), i)),
            Inner(p.n, p.o, e, Residual(p, y)), Times(0.5, SquaredNorm(p.n, p.o, e)), Count(p));
  }

  // ---- exact expansions in wo and in wv ----

  /** How far the output moves when wo moves by dir. */
  function OutputShiftByWo(p: Problem, w: Params, dir: Entries): Entries {
    Mul(p.h, Hidden(p, w), dir)
  }

  /** How far the output moves when wv moves by dir. */
  function OutputShiftByWv(p: Problem, w: Params, dir: Entries): Entries {
    Mul(p.h, Mul(p.n, Weight(p, w), Mul(p.d, p.x, dir)), w.wo)
  }

  /** The loss is exactly quadratic in wo, with the computed gradient as its linear part. */
  lemma WoGradientIsExact(p: Problem, w: Params, dir: Entries)
    requires p.n > 0 && p.o > 0
    ensures Loss(p, w.(wo := Plus(w.wo, dir)))
         == Loss(p, w) + Inner(p.h, p.o, Gradient(p, w).wo, dir)
          + Over(Times(0.5, SquaredNorm(p.n, p.o, OutputShiftByWo(p, w, dir))), Count(p))
  {
    var w' := w.(wo := Plus(w.wo, dir));
    var y, y', e := Output(p, w), Output(p, w'), OutputShiftByWo(p, w, dir);
    assert Hidden(p, w') == Hidden(p, w);
    var ye := Plus(y, e);
    forall i, j ensures y'(i, j) == ye(i, j) {
      MulAddRight(p.h, Hidden(p, w), w.wo, dir, i, j);
    }
    MeanSquareExpansion(p, y, e, y');
    AdjointOfLeftFactor(p.n, p.h, p.o, Hidden(p, w), dir, OutputGrad(p, y));
  }

  lemma OutputMovesWithWv(p: Problem, w: Params, dir: Entries)
    ensures Agree(p.n, p.o, Output(p, w.(wv := Plus(w.wv, dir))), Plus(Output(p, w), OutputShiftByWv(p, w, dir)))
  {
    var w' := w.(wv := Plus(w.wv, dir));
    var v, v', dv, a := Value(p, w), Value(p, w'), Mul(p.d, p.x, dir), Weight(p, w);
    assert Weight(p, w') == a;
    var vs := Plus(v, dv);
    forall i, j ensures v'(i, j) == vs(i, j) {
      MulAddRight(p.d, p.x, w.wv, dir, i, j);
    }
    var h, h', dh := Hidden(p, w), Hidden(p, w'), Mul(p.n, a, dv);
    MulExt(p.n, p.n, p.h, a, v', a, vs);
    var mvs, hs := Mul(p.n, a, vs), Plus(h, dh);
    forall i, j | 0 <= i < p.n && 0 <= j < p.h ensures h'(i, j) == hs(i, j) {
      assert h'(i, j) == mvs(i, j);
      MulAddRight(p.n, a, v, dv, i, j);
    }
    MulExt(p.n, p.h, p.o, h', w.wo, hs, w.wo);
    var y', mhs, ys := Output(p, w'), Mul(p.h, hs, w.wo), Plus(Output(p, w), OutputShiftByWv(p, w, dir));
    forall i, j | 0 <= i < p.n && 0 <= j < p.o ensures y'(i, j) == ys(i, j) {
      assert y'(i, j) == mhs(i, j);
      MulAddLeft(p.h, h, dh, w.wo, i, j);
    }
  }

  /** The loss is exactly quadratic in wv, with the computed gradient as its linear part. */
  lemma {:induction false} WvGradientIsExact(p: Problem, w: Params, dir: Entries)
    requires p.n > 0 && p.o > 0
    ensures Loss(p, w.(wv := Plus(w.wv, dir)))
         == Loss(p, w) + Inner(p.d, p.h, Gradient(p, w).wv, dir)
          + Over(Times(0.5, SquaredNorm(p.n, p.o, OutputShiftByWv(p, w, dir))), Count(p))
  {
    var a, dv, dy := Weight(p, w), Mul(p.d, p.x, dir), OutputGrad(p, Output(p, w));
    OutputMovesWithWv(p, w, dir);
    MeanSquareExpansion(p, Output(p, w), OutputShiftByWv(p, w, dir), Output(p, w.(wv := Plus(w.wv, dir))));
    AdjointOfRightFactor(p.n, p.h, p.o, Mul(p.n, a, dv), w.wo, dy);
    AdjointOfLeftFactor(p.n, p.n, p.h, a, dv, HiddenGrad(p, w));
    AdjointOfLeftFactor(p.n, p.d, p.h, p.x, dir, ValueGrad(p, w));
  }

  // ---- central differences ----

  /** One entry moved by step, the others left alone. */
  function Spike(row: int, col: int, step: real): Entries {
    (i: int, j: int) => if i == row && j == col then step else 0.0
  }

  lemma InnerSpike(m: nat, n: nat, a: Entries, row: int, col: int, step: real)
    requires 0 <= row < m && 0 <= col < n
    ensures Inner(m, n, a, Spike(row, col, step)) == Times(a(row, col), step)
  {
    var s := Spike(row, col, step);
    forall i | 0 <= i < m && i != row ensures RowInner(n, a, s, i) == 0.0 {
      forall j ensures Times(a(i, j), s(i, j)) == 0.0 {
        Commute(a(i, j), 0.0);
        TimesZero(a(i, j));
      }
      SumZero(n, (j: int) => Times(a(i, j), s(i, j)));
    }
    SumSingle(m, (i: int) => RowInner(n, a, s, i), row);
    forall j | j != col ensures Times(a(row, j), s(row, j)) == 0.0 {
      Commute(a(row, j), 0.0);
      TimesZero(a(row, j));
    }
    SumSingle(n, (j: int) => Times(a(row, j), s(row, j)), col);
  }

  lemma MulNegated(m: nat, k: nat, n: nat, a: Entries, b: Entries, c: Entries)
    requires forall i, j :: c(i, j) == -b(i, j)
    ensures forall i, j :: Mul(k, a, c)(i, j) == -Mul(k, a, b)(i, j)
  {
    forall i, j ensures Prod(k, a, c, i, j) == -Prod(k, a, b, i, j) {
      forall l ensures Times(a(i, l), c(l, j)) == Times(-1.0, Times(a(i, l), b(l, j))) {
        Negate(a(i, l), b(l, j));
      }
      SumScale(k, -1.0, (l: int) => Times(a(i, l), b(l, j)), (l: int) => Times(a(i, l), c(l, j)));
      Negate(1.0, Prod(k, a, b, i, j));
    }
  }

  lemma SquaredNormNegated(m: nat, n: nat, a: Entries, b: Entries)
    requires forall i, j :: b(i, j) == -a(i, j)
    ensures SquaredNorm(m, n, b) == SquaredNorm(m, n, a)
  {
    forall i ensures RowInner(n, b, b, i) == RowInner(n, a, a, i) {
      forall j ensures Times(b(i, j), b(i, j)) == Times(a(i, j), a(i, j)) {
        Negate(a(i, j), a(i, j));
      }
      SumExt(n, (j: int) => Times(b(i, j), b(i, j)), (j: int) => Times(a(i, j), a(i, j)));
    }
    SumExt(m, (i: int) => RowInner(n, b, b, i), (i: int) => RowInner(n, a, a, i));
  }

  lemma HalfDifference(base: real, g: real, sq: real, step: real, up: real, down: real)
    requires step != 0.0
    requires up == base + Times(g, step) + sq && down == base + Times(g, -step) + sq
    ensures Over(up - down, 2.0 * step) == g
  {
    Negate(g, step);
    TwiceOver(g, step);
  }

  lemma TwiceOver(g: real, step: real)
    requires step != 0.0
    ensures Over(2.0 * Times(g, step), 2.0 * step) == g
  {
    var d, t := 2.0 * step, Times(g, step);
    assert Times(g, d) == 2.0 * t;
    OverUnique(2.0 * t, d, g);
  }

  lemma SpikeDifference(p: Problem, w: Params, up: Params, down: Params, g: real, sq: real, step: real)
    requires step != 0.0
    requires Loss(p, up) == Loss(p, w) + Times(g, step) + sq && Loss(p, down) == Loss(p, w) + Times(g, -step) + sq
    ensures Over(Loss(p, up) - Loss(p, down), 2.0 * step) == g
  {
    HalfDifference(Loss(p, w), g, sq, step, Loss(p, up), Loss(p, down));
  }

  lemma WoSpike(p: Problem, w: Params, row: int, col: int, step: real, sq: real)
    requires p.n > 0 && p.o > 0 && 0 <= row < p.h && 0 <= col < p.o
    requires sq == SquaredNorm(p.n, p.o, OutputShiftByWo(p, w, Spike(row, col, step)))
    ensures Loss(p, w.(wo := Plus(w.wo, Spike(row, col, step))))
         == Loss(p, w) + Times(Gradient(p, w).wo(row, col), step) + Over(Times(0.5, sq), Count(p))
  {
    WoGradientIsExact(p, w, Spike(row, col, step));
    InnerSpike(p.h, p.o, Gradient(p, w).wo, row, col, step);
  }

  lemma WvSpike(p: Problem, w: Params, row: int, col: int, step: real, sq: real)
    requires p.n > 0 && p.o > 0 && 0 <= row < p.d && 0 <= col < p.h
    requires sq == SquaredNorm(p.n, p.o, OutputShiftByWv(p, w, Spike(row, col, step)))
    ensures Loss(p, w.(wv := Plus(w.wv, Spike(row, col, step))))
         == Loss(p, w) + Times(Gradient(p, w).wv(row, col), step) + Over(Times(0.5, sq), Count(p))
  {
    WvGradientIsExact(p, w, Spike(row, col, step));
    InnerSpike(p.d, p.h, Gradient(p, w).wv, row, col, step);
  }

  /** For every entry of wo and every step, the central difference of the loss is the gradient, with no error. */
  lemma WoCentralDifference(p: Problem, w: Params, row: int, col: int, step: real)
    requires p.n > 0 && p.o > 0 && 0 <= row < p.h && 0 <= col < p.o && step != 0.0
    ensures Over(Loss(p, w.(wo := Plus(w.wo, Spike(row, col, step))))
               - Loss(p, w.(wo := Plus(w.wo, Spike(row, col, -step)))), 2.0 * step)
         == Gradient(p, w).wo(row, col)
  {
    var up, down := Spike(row, col, step), Spike(row, col, -step);
    MulNegated(p.n, p.h, p.o, Hidden(p, w), up, down);
    SquaredNormNegated(p.n, p.o, OutputShiftByWo(p, w, up), OutputShiftByWo(p, w, down));
    var sq := SquaredNorm(p.n, p.o, OutputShiftByWo(p, w, up));
    WoSpike(p, w, row, col, step, sq);
    WoSpike(p, w, row, col, -step, sq);
    SpikeDifference(p, w, w.(wo := Plus(w.wo, up)), w.(wo := Plus(w.wo, down)), Gradient(p, w).wo(row, col),
      Over(Times(0.5, sq), Count(p)), step);
  }

  lemma MulNegatedLeft(k: nat, a: Entries, b: Entries, c: Entries)
    requires forall i, j :: c(i, j) == -a(i, j)
    ensures forall i, j :: Mul(k, c, b)(i, j) == -Mul(k, a, b)(i, j)
  {
    forall i, j ensures Prod(k, c, b, i, j) == -Prod(k, a, b, i, j) {
      forall l ensures Times(c(i, l), b(l, j)) == Times(-1.0, Times(a(i, l), b(l, j))) {
        Negate(a(i, l), b(l, j));
      }
      SumScale(k, -1.0, (l: int) => Times(a(i, l), b(l, j)), (l: int) => Times(c(i, l), b(l, j)));
      Negate(1.0, Prod(k, a, b, i, j));
    }
  }

  lemma ShiftByWvNegated(p: Problem, w: Params, up: Entries, down: Entries)
    requires forall i, j :: down(i, j) == -up(i, j)
    ensures SquaredNorm(p.n, p.o, OutputShiftByWv(p, w, down)) == SquaredNorm(p.n, p.o, OutputShiftByWv(p, w, up))
  {
    var xu, xd, wt := Mul(p.d, p.x, up), Mul(p.d, p.x, down), Weight(p, w);
    MulNegated(p.n, p.d, p.h, p.x, up, down);
    MulNegated(p.n, p.n, p.h, wt, xu, xd);
    MulNegatedLeft(p.h, Mul(p.n, wt, xu), w.wo, Mul(p.n, wt, xd));
    SquaredNormNegated(p.n, p.o, OutputShiftByWv(p, w, up), OutputShiftByWv(p, w, down));
  }

  /** The same for every entry of wv. */
  lemma {:induction false} WvCentralDifference(p: Problem, w: Params, row: int, col: int, step: real)
    requires p.n > 0 && p.o > 0 && 0 <= row < p.d && 0 <= col < p.h && step != 0.0
    ensures Over(Loss(p, w.(wv := Plus(w.wv, Spike(row, col, step))))
               - Loss(p, w.(wv := Plus(w.wv, Spike(row, col, -step)))), 2.0 * step)
         == Gradient(p, w).wv(row, col)
  {
    var up, down := Spike(row, col, step), Spike(row, col, -step);
    ShiftByWvNegated(p, w, up, down);
    var sq := SquaredNorm(p.n, p.o, OutputShiftByWv(p, w, up));
    WvSpike(p, w, row, col, step, sq);
    WvSpike(p, w, row, col, -step, sq);
    SpikeDifference(p, w, w.(wv := Plus(w.wv, up)), w.(wv := Plus(w.wv, down)), Gradient(p, w).wv(row, col),
      Over(Times(0.5, sq), Count(p)), step);
  }
}
