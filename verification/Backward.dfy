/** The backward pass and the Adam step as loops over matrices. */
module Backward {
  import opened Sums
  import opened Attention
  import opened Matrices
  import opened Kernel
  import Adam
  import Derivative
  import Descent
  import Expansion
  import Gradients

  lemma TransposeOf(m: Matrix, rows: int, columns: int, f: Entries)
    requires Holds(m, rows, columns, f) && rows > 0
    ensures Holds(Transpose(m), columns, rows, Flip(f))
  {
    TransposeHolds(m, rows, columns);
    HoldsExt(Transpose(m), columns, rows, Flip(EntriesOf(m)), Flip(f));
  }

  // ---- scores ----

  lemma AllowedDot(da: Vector, a: Vector, n: nat, dae: Entries, ae: Entries, row: nat, f: int -> real)
    requires row < n && |da| == |a| == n
    requires forall j :: 0 <= j < n ==> da[j] == dae(row, j) && a[j] == ae(row, j)
    requires forall j :: 0 <= j <= row ==> f(j) == Times(da[j], a[j])
    ensures Sum(row + 1, f) == RowInner(row + 1, dae, ae, row)
  {
    SumExt(row + 1, f, (j: int) => Times(dae(row, j), ae(row, j)));
  }

  /** Softmax backward, row by row under the causal mask. */
  method FillScoreGrad(attention: Matrix, dattention: Matrix, n: nat, ghost a: Entries, ghost da: Entries)
    returns (dscores: Matrix)
    requires Holds(attention, n, n, a) && Holds(dattention, n, n, da)
    ensures Holds(dscores, n, n, SoftmaxGrad(a, da))
  {
    ghost var ds := SoftmaxGrad(a, da);
    dscores := Zeros(n, n);
    for row := 0 to n
      invariant IsMatrix(dscores, n, n)
      invariant forall i, j :: 0 <= i < n && 0 <= j < n ==> dscores[i][j] == if i < row then ds(i, j) else 0.0
    {
      var allowed := row + 1;
      var dot := Sum(allowed, (column: int) => Times(Get(dattention[row], column), Get(attention[row], column)));
      AllowedDot(dattention[row], attention[row], n, da, a, row,
        (column: int) => Times(Get(dattention[row], column), Get(attention[row], column)));
      for column := 0 to allowed
        invariant IsMatrix(dscores, n, n)
        invariant forall i, j :: 0 <= i < n && 0 <= j < n ==>
          dscores[i][j] == if i < row || (i == row && j < column) then ds(i, j) else 0.0
      {
        var value := Times(attention[row][column], dattention[row][column] - dot);
        PutHolds(dscores, n, n, row, column, value);
        dscores := Put(dscores, row, column, value);
      }
      assert forall j :: row < j < n ==> ds(row, j) == 0.0;
    }
  }

  // ---- queries and keys ----

  /** m[i][j] += value */
  function Bump(m: Matrix, i: int, j: int, value: real): Matrix
    requires 0 <= i < |m| && 0 <= j < |m[i]|
  {
    Put(m, i, j, m[i][j] + value)
  }

  lemma BumpHolds(m: Matrix, rows: int, columns: int, i: int, j: int, value: real)
    requires IsMatrix(m, rows, columns) && 0 <= i < rows && 0 <= j < columns
    ensures IsMatrix(Bump(m, i, j, value), rows, columns)
    ensures forall r, c {:trigger Bump(m, i, j, value)[r][c]} :: 0 <= r < rows && 0 <= c < columns ==>
      Bump(m, i, j, value)[r][c] == if r == i && c == j then m[r][c] + value else m[r][c]
  {
    PutHolds(m, rows, columns, i, j, m[i][j] + value);
  }

  /** The innermost loop: one score moves one row of dq and one row of dk. */
  method AddContribution(
      dq: Matrix, dk: Matrix, q: Vector, k: Vector, d: real, scale: real, n: nat, e: nat, row: nat, column: nat)
    returns (dq': Matrix, dk': Matrix)
    requires IsMatrix(dq, n, e) && IsMatrix(dk, n, e) && |q| == |k| == e && row < n && column < n
    ensures IsMatrix(dq', n, e) && IsMatrix(dk', n, e)
    ensures forall r, t {:trigger dq'[r][t]} :: 0 <= r < n && 0 <= t < e ==>
      dq'[r][t] == if r == row then dq[r][t] + Times(Times(d, k[t]), scale) else dq[r][t]
    ensures forall c, t {:trigger dk'[c][t]} :: 0 <= c < n && 0 <= t < e ==>
      dk'[c][t] == if c == column then dk[c][t] + Times(Times(d, q[t]), scale) else dk[c][t]
  {
    dq' := dq;
    dk' := dk;
    for dim := 0 to e
      invariant IsMatrix(dq', n, e) && IsMatrix(dk', n, e)
      invariant forall r, t {:trigger dq'[r][t]} :: 0 <= r < n && 0 <= t < e ==>
        dq'[r][t] == if r == row && t < dim then dq[r][t] + Times(Times(d, k[t]), scale) else dq[r][t]
      invariant forall c, t {:trigger dk'[c][t]} :: 0 <= c < n && 0 <= t < e ==>
        dk'[c][t] == if c == column && t < dim then dk[c][t] + Times(Times(d, q[t]), scale) else dk[c][t]
    {
      var x, y := Times(Times(d, k[dim]), scale), Times(Times(d, q[dim]), scale);
      BumpHolds(dq', n, e, row, dim, x);
      BumpHolds(dk', n, e, column, dim, y);
      dq' := Bump(dq', row, dim, x);
      dk' := Bump(dk', column, dim, y);
    }
  }

  lemma NextQueryTerm(c: nat, scale: real, ds: Entries, k: Entries, r: int, t: int)
    ensures QueryGrad(c + 1, scale, ds, k)(r, t)
      == QueryGrad(c, scale, ds, k)(r, t) + Times(Times(ds(r, c), k(c, t)), scale)
    ensures QueryGrad(0, scale, ds, k)(r, t) == 0.0
  {
  }

  lemma NextKeyTerm(r: nat, scale: real, ds: Entries, q: Entries, c: int, t: int)
    ensures KeyGrad(r + 1, scale, ds, q)(c, t)
      == KeyGrad(r, scale, ds, q)(c, t) + Times(Times(ds(r, c), q(r, t)), scale)
    ensures KeyGrad(0, scale, ds, q)(c, t) == 0.0
  {
  }

  lemma NothingToAdd(d: real, x: real, scale: real)
    requires d == 0.0
    ensures Times(Times(d, x), scale) == 0.0
  {
    TimesZero(x);
    TimesZero(scale);
  }

  /** dq and dk when rows before row are done and, in row, columns before column. */
  ghost predicate Accumulated(
    dq: Matrix, dk: Matrix, n: nat, e: nat, scale: real, ds: Entries, q: Entries, k: Entries, row: nat, column: nat)
  {
    && IsMatrix(dq, n, e) && IsMatrix(dk, n, e)
    && (forall r, t :: 0 <= r < n && 0 <= t < e ==>
          dq[r][t] == QueryGrad(if r < row then n else if r == row then column else 0, scale, ds, k)(r, t))
    && (forall c, t :: 0 <= c < n && 0 <= t < e ==>
          dk[c][t] == KeyGrad(if c < column then row + 1 else row, scale, ds, q)(c, t))
  }

  lemma AccumulatedStart(dq: Matrix, dk: Matrix, n: nat, e: nat, scale: real, ds: Entries, q: Entries, k: Entries)
    requires IsMatrix(dq, n, e) && IsMatrix(dk, n, e)
    requires forall i, j :: 0 <= i < n && 0 <= j < e ==> dq[i][j] == 0.0 && dk[i][j] == 0.0
    ensures Accumulated(dq, dk, n, e, scale, ds, q, k, 0, 0)
  {
    forall r, t | 0 <= r < n && 0 <= t < e
      ensures QueryGrad(0, scale, ds, k)(r, t) == 0.0 && KeyGrad(0, scale, ds, q)(r, t) == 0.0
    {
      NextQueryTerm(0, scale, ds, k, r, t);
      NextKeyTerm(0, scale, ds, q, r, t);
    }
  }

  lemma AccumulatedRow(
    dq: Matrix, dk: Matrix, n: nat, e: nat, scale: real, ds: Entries, q: Entries, k: Entries, row: nat)
    requires Accumulated(dq, dk, n, e, scale, ds, q, k, row, n)
    ensures Accumulated(dq, dk, n, e, scale, ds, q, k, row + 1, 0)
  {
    forall r, t | 0 <= r < n && 0 <= t < e
      ensures dq[r][t] == QueryGrad(if r < row + 1 then n else if r == row + 1 then 0 else 0, scale, ds, k)(r, t)
    {
      if r < row {
      } else if r == row {
      } else {
        assert dq[r][t] == QueryGrad(0, scale, ds, k)(r, t);
      }
    }
  }

  lemma AccumulatedColumn(
    dq: Matrix, dk: Matrix, dq': Matrix, dk': Matrix,
    n: nat, e: nat, scale: real, ds: Entries, q: Entries, k: Entries, row: nat, column: nat)
    requires row < n && column < n
    requires Accumulated(dq, dk, n, e, scale, ds, q, k, row, column)
    requires IsMatrix(dq', n, e) && IsMatrix(dk', n, e)
    requires forall r, t {:trigger dq'[r][t]} :: 0 <= r < n && 0 <= t < e ==>
      dq'[r][t] == if r == row then dq[r][t] + Times(Times(ds(row, column), k(column, t)), scale) else dq[r][t]
    requires forall c, t {:trigger dk'[c][t]} :: 0 <= c < n && 0 <= t < e ==>
      dk'[c][t] == if c == column then dk[c][t] + Times(Times(ds(row, column), q(row, t)), scale) else dk[c][t]
    ensures Accumulated(dq', dk', n, e, scale, ds, q, k, row, column + 1)
  {
    forall r, t | 0 <= r < n && 0 <= t < e
      ensures dq'[r][t] == QueryGrad(if r < row then n else if r == row then column + 1 else 0, scale, ds, k)(r, t)
    {
      if r == row {
        NextQueryTerm(column, scale, ds, k, r, t);
      }
    }
    forall c, t | 0 <= c < n && 0 <= t < e
      ensures dk'[c][t] == KeyGrad(if c < column + 1 then row + 1 else row, scale, ds, q)(c, t)
    {
      if c == column {
        NextKeyTerm(row, scale, ds, q, c, t);
      }
    }
  }

  /** The accumulating loops over dq and dk, skipping scores whose gradient is zero. */
  method AccumulateQueryKey(dscores: Matrix, q: Matrix, k: Matrix, scale: real, n: nat, e: nat,
                            ghost ds: Entries, ghost qe: Entries, ghost ke: Entries) returns (dq: Matrix, dk: Matrix)
    requires Holds(dscores, n, n, ds) && Holds(q, n, e, qe) && Holds(k, n, e, ke)
    ensures Holds(dq, n, e, QueryGrad(n, scale, ds, ke))
    ensures Holds(dk, n, e, KeyGrad(n, scale, ds, qe))
  {
    dq := Zeros(n, e);
    dk := Zeros(n, e);
    AccumulatedStart(dq, dk, n, e, scale, ds, qe, ke);
    for row := 0 to n
      invariant Accumulated(dq, dk, n, e, scale, ds, qe, ke, row, 0)
    {
      for column := 0 to n
        invariant Accumulated(dq, dk, n, e, scale, ds, qe, ke, row, column)
      {
        ghost var dq0, dk0 := dq, dk;
        if dscores[row][column] == 0.0 {
          forall t | 0 <= t < e
            ensures Times(Times(ds(row, column), ke(column, t)), scale) == 0.0
            ensures Times(Times(ds(row, column), qe(row, t)), scale) == 0.0
          {
            NothingToAdd(ds(row, column), ke(column, t), scale);
            NothingToAdd(ds(row, column), qe(row, t), scale);
          }
        } else {
          dq, dk := AddContribution(dq, dk, q[row], k[column], dscores[row][column], scale, n, e, row, column);
        }
        AccumulatedColumn(dq0, dk0, dq, dk, n, e, scale, ds, qe, ke, row, column);
      }
      AccumulatedRow(dq, dk, n, e, scale, ds, qe, ke, row);
    }
  }

  // ---- the whole backward pass ----

  ghost predicate HoldsParams(p: Problem, w: Weights, f: Params) {
    && Holds(w.wq, p.d, p.e, f.wq)
    && Holds(w.wk, p.d, p.e, f.wk)
    && Holds(w.wv, p.d, p.h, f.wv)
    && Holds(w.wo, p.h, p.o, f.wo)
  }

  method OutputGradOf(y: Matrix, target: Matrix, ghost p: Problem, ghost ye: Entries) returns (dy: Matrix)
    requires p.n > 0 && p.o > 0 && Holds(y, p.n, p.o, ye) && Holds(target, p.n, p.o, p.target)
    ensures Holds(dy, p.n, p.o, OutputGrad(p, ye))
  {
    var count := (|y| * |y[0]|) as real;
    dy := seq(|y|, (row: int) requires 0 <= row < |y| =>
      seq(|y[0]|, (col: int) requires 0 <= col < |y[0]| && |y[row]| == |y[0]| == |target[row]| && |target| == |y| =>
        Over(y[row][col] - target[row][col], count)));
  }

  /** The hand-written backward pass computes the gradient formulas, and so predicts the derivative of the loss in
      every direction, for every amount subtracted inside the softmax. */
  method BackwardPass(exp: real -> real, sqrt: real -> real, x: Matrix, target: Matrix, w: Weights, c: Cache)
    returns (g: Weights)
    requires IsExp(exp) && IsCacheOf(exp, sqrt, x, target, w, c)
    ensures var p := ProblemOf(exp, sqrt, x, target, w); HoldsParams(p, g, Gradient(p, ParamsOf(w)))
    ensures var p := ProblemOf(exp, sqrt, x, target, w);
      forall dir: Params, shift: int -> Dual ::
        DLoss(p, ParamsOf(w), dir, shift).t == Gradients.Predicted(p, ParamsOf(g), dir)
    ensures sqrt(|x[0]| as real) != 0.0 ==>
      Times(ProblemOf(exp, sqrt, x, target, w).scale, sqrt(|x[0]| as real)) == 1.0
  {
    var p := ProblemOf(exp, sqrt, x, target, w);
    ghost var pw := ParamsOf(w);
    if sqrt(|x[0]| as real) != 0.0 {
      ScaleIsInverseRoot(sqrt(|x[0]| as real));
    }
    WeightsHold(x, p.n, p.d);
    WeightsHold(target, p.n, p.o);
    WeightsHold(w.wo, p.h, p.o);
    var dy := OutputGradOf(c.y, target, p, Output(p, pw));
    ghost var dye := OutputGrad(p, Output(p, pw));
    TransposeOf(c.hidden, p.n, p.h, Hidden(p, pw));
    var dwo := Matmul(Transpose(c.hidden), dy);
    MatmulHolds(Transpose(c.hidden), dy, p.h, p.n, p.o, Flip(Hidden(p, pw)), dye);
    TransposeOf(w.wo, p.h, p.o, pw.wo);
    var dhidden := Matmul(dy, Transpose(w.wo));
    MatmulHolds(dy, Transpose(w.wo), p.n, p.o, p.h, dye, Flip(pw.wo));
    TransposeOf(c.v, p.n, p.h, Value(p, pw));
    var dattention := Matmul(dhidden, Transpose(c.v));
    MatmulHolds(dhidden, Transpose(c.v), p.n, p.h, p.n, HiddenGrad(p, pw), Flip(Value(p, pw)));
    TransposeOf(c.attention, p.n, p.n, Weight(p, pw));
    var dv := Matmul(Transpose(c.attention), dhidden);
    MatmulHolds(Transpose(c.attention), dhidden, p.n, p.n, p.h, Flip(Weight(p, pw)), HiddenGrad(p, pw));
    var dscores := FillScoreGrad(c.attention, dattention, |c.attention|, Weight(p, pw), WeightGrad(p, pw));
    var dq, dk := AccumulateQueryKey(dscores, c.q, c.k, p.scale, p.n, p.e, ScoreGrad(p, pw), Query(p, pw), Key(p, pw));
    g := InputGrads(p, x, dq, dk, dv, dwo, pw);
    forall dir: Params, shift: int -> Dual
      ensures DLoss(p, pw, dir, shift).t == Gradients.Predicted(p, ParamsOf(g), dir)
    {
      Gradients.GradientIsExact(p, pw, dir, shift);
      SamePrediction(p, g, Gradient(p, pw), dir);
    }
  }

  method InputGrads(p: Problem, x: Matrix, dq: Matrix, dk: Matrix, dv: Matrix, dwo: Matrix, ghost w: Params)
    returns (g: Weights)
    requires p.n > 0 && p.d > 0 && Holds(x, p.n, p.d, p.x)
    requires Holds(dq, p.n, p.e, QueryGrad(p.n, p.scale, ScoreGrad(p, w), Key(p, w)))
    requires Holds(dk, p.n, p.e, KeyGrad(p.n, p.scale, ScoreGrad(p, w), Query(p, w)))
    requires Holds(dv, p.n, p.h, ValueGrad(p, w))
    requires Holds(dwo, p.h, p.o, Gradient(p, w).wo)
    ensures HoldsParams(p, g, Gradient(p, w))
  {
    TransposeOf(x, p.n, p.d, p.x);
    var xt := Transpose(x);
    MatmulHolds(xt, dq, p.d, p.n, p.e, Flip(p.x), QueryGrad(p.n, p.scale, ScoreGrad(p, w), Key(p, w)));
    MatmulHolds(xt, dk, p.d, p.n, p.e, Flip(p.x), KeyGrad(p.n, p.scale, ScoreGrad(p, w), Query(p, w)));
    MatmulHolds(xt, dv, p.d, p.n, p.h, Flip(p.x), ValueGrad(p, w));
    g := Weights(Matmul(xt, dq), Matmul(xt, dk), Matmul(xt, dv), dwo);
  }

  lemma SamePrediction(p: Problem, g: Weights, f: Params, dir: Params)
    requires HoldsParams(p, g, f)
    ensures Gradients.Predicted(p, ParamsOf(g), dir) == Gradients.Predicted(p, f, dir)
  {
    var e := ParamsOf(g);
    HoldsAgree(g.wq, p.d, p.e, f.wq);
    HoldsAgree(g.wk, p.d, p.e, f.wk);
    HoldsAgree(g.wv, p.d, p.h, f.wv);
    HoldsAgree(g.wo, p.h, p.o, f.wo);
    InnerExt(p.d, p.e, e.wq, dir.wq, f.wq, dir.wq);
    InnerExt(p.d, p.e, e.wk, dir.wk, f.wk, dir.wk);
    InnerExt(p.d, p.h, e.wv, dir.wv, f.wv, dir.wv);
    InnerExt(p.h, p.o, e.wo, dir.wo, f.wo, dir.wo);
  }

  // ---- Adam ----

  datatype AdamSettings = AdamSettings(learningRate: real, beta1: real, beta2: real, epsilon: real)

  /** The loop over one named matrix. */
  method AdamMatrix(sqrt: real -> real, s: AdamSettings, matrix: Matrix, grad: Matrix, rows: nat, columns: nat)
    returns (updated: Matrix)
    requires Adam.IsSqrt(sqrt) && s.beta1 != 1.0 && s.beta2 != 1.0
    requires IsMatrix(matrix, rows, columns) && IsMatrix(grad, rows, columns)
    ensures Holds(updated, rows, columns,
      Plus(EntriesOf(matrix), Adam.AdamMove(s.learningRate, s.epsilon, EntriesOf(grad))))
    ensures forall i, j :: 0 <= i < rows && 0 <= j < columns && Adam.Abs(grad[i][j]) + s.epsilon != 0.0 ==>
      Times(matrix[i][j] - updated[i][j], Adam.Abs(grad[i][j]) + s.epsilon) == Times(s.learningRate, grad[i][j])
  {
    ghost var m, g := EntriesOf(matrix), EntriesOf(grad);
    ghost var f := Plus(m, Adam.AdamMove(s.learningRate, s.epsilon, g));
    updated := matrix;
    for row := 0 to |matrix|
      invariant IsMatrix(updated, rows, columns)
      invariant forall i, j :: 0 <= i < rows && 0 <= j < columns ==>
        updated[i][j] == if i < row then f(i, j) else matrix[i][j]
    {
      for column := 0 to |matrix[row]|
        invariant IsMatrix(updated, rows, columns)
        invariant forall i, j :: 0 <= i < rows && 0 <= j < columns ==>
          updated[i][j] == if i < row || (i == row && j < column) then f(i, j) else matrix[i][j]
      {
        var value := Adam.AdamEntry(sqrt, s.learningRate, s.beta1, s.beta2, s.epsilon, matrix[row][column],
          grad[row][column]);
        Adam.AdamEntryIsStep(sqrt, s.learningRate, s.beta1, s.beta2, s.epsilon, matrix[row][column], grad[row][column]);
        PutHolds(updated, rows, columns, row, column, value);
        updated := Put(updated, row, column, value);
      }
    }
    forall i, j | 0 <= i < rows && 0 <= j < columns && Adam.Abs(grad[i][j]) + s.epsilon != 0.0
      ensures Times(matrix[i][j] - updated[i][j], Adam.Abs(grad[i][j]) + s.epsilon)
        == Times(s.learningRate, grad[i][j])
    {
      Adam.StepTimesSize(s.learningRate, s.epsilon, grad[i][j]);
    }
  }

  method AdamStep(sqrt: real -> real, s: AdamSettings, w: Weights, g: Weights, d: nat, e: nat, h: nat, o: nat)
    returns (updated: Weights)
    requires Adam.IsSqrt(sqrt) && s.beta1 != 1.0 && s.beta2 != 1.0
    requires IsMatrix(w.wq, d, e) && IsMatrix(w.wk, d, e) && IsMatrix(w.wv, d, h) && IsMatrix(w.wo, h, o)
    requires IsMatrix(g.wq, d, e) && IsMatrix(g.wk, d, e) && IsMatrix(g.wv, d, h) && IsMatrix(g.wo, h, o)
    ensures var lr, eps := s.learningRate, s.epsilon;
      && Holds(updated.wq, d, e, Plus(EntriesOf(w.wq), Adam.AdamMove(lr, eps, EntriesOf(g.wq))))
      && Holds(updated.wk, d, e, Plus(EntriesOf(w.wk), Adam.AdamMove(lr, eps, EntriesOf(g.wk))))
      && Holds(updated.wv, d, h, Plus(EntriesOf(w.wv), Adam.AdamMove(lr, eps, EntriesOf(g.wv))))
      && Holds(updated.wo, h, o, Plus(EntriesOf(w.wo), Adam.AdamMove(lr, eps, EntriesOf(g.wo))))
  {
    var wq := AdamMatrix(sqrt, s, w.wq, g.wq, d, e);
    var wk := AdamMatrix(sqrt, s, w.wk, g.wk, d, e);
    var wv := AdamMatrix(sqrt, s, w.wv, g.wv, d, h);
    var wo := AdamMatrix(sqrt, s, w.wo, g.wo, h, o);
    updated := Weights(wq, wk, wv, wo);
  }

  /** Moving wo along a computed gradient is moving it along the gradient. */
  lemma SameMove(p: Problem, w: Params, g: Entries, exact: Entries, lr: real, eps: real, wo: Entries)
    requires Agree(p.h, p.o, g, exact)
    requires Agree(p.h, p.o, wo, Plus(w.wo, Adam.AdamMove(lr, eps, g)))
    ensures Loss(p, w.(wo := wo)) == Loss(p, w.(wo := Plus(w.wo, Adam.AdamMove(lr, eps, exact))))
  {
    var mv, mv' := Adam.AdamMove(lr, eps, g), Adam.AdamMove(lr, eps, exact);
    var a, b := Plus(w.wo, mv), Plus(w.wo, mv');
    forall i, j | 0 <= i < p.h && 0 <= j < p.o ensures wo(i, j) == b(i, j) {
      assert wo(i, j) == a(i, j) && g(i, j) == exact(i, j);
    }
    Derivative.LossAgrees(p, w.(wo := wo), w.(wo := b));
  }

  /** Forward, backward and one Adam step on wo alone: under the condition, the step strictly lowers the loss. */
  method StepOutputMatrix(exp: real -> real, sqrt: real -> real, x: Matrix, target: Matrix, w: Weights, s: AdamSettings)
    returns (updated: Weights)
    requires IsExp(exp) && Adam.IsSqrt(sqrt) && WellShaped(x, target, w)
    requires s.beta1 != 1.0 && s.beta2 != 1.0 && s.learningRate > 0.0 && s.epsilon > 0.0
    ensures var p := ProblemOf(exp, sqrt, x, target, w);
      && updated == w.(wo := updated.wo)
      && ((exists i, j :: 0 <= i < p.h && 0 <= j < p.o && Gradient(p, ParamsOf(w)).wo(i, j) != 0.0)
          && Times(s.learningRate, Descent.SquaredNorm(p.n, p.h, Hidden(p, ParamsOf(w))))
            < 2.0 * Times(Count(p), s.epsilon)
          ==> Loss(p, ParamsOf(updated)) < Loss(p, ParamsOf(w)))
  {
    ghost var p := ProblemOf(exp, sqrt, x, target, w);
    ghost var pw := ParamsOf(w);
    var c := ForwardFullSequence(exp, sqrt, x, target, w);
    var g := BackwardPass(exp, sqrt, x, target, w, c);
    ghost var exact := Gradient(p, pw).wo;
    HoldsAgree(g.wo, p.h, p.o, exact);
    var wo := AdamMatrix(sqrt, s, w.wo, g.wo, |w.wv[0]|, |w.wo[0]|);
    HoldsAgree(wo, p.h, p.o, Plus(pw.wo, Adam.AdamMove(s.learningRate, s.epsilon, EntriesOf(g.wo))));
    updated := w.(wo := wo);
    assert ParamsOf(updated) == pw.(wo := EntriesOf(wo));
    if Times(s.learningRate, Descent.SquaredNorm(p.n, p.h, Hidden(p, pw))) < 2.0 * Times(Count(p), s.epsilon) {
      OutputStepLowers(p, pw, EntriesOf(g.wo), s.learningRate, s.epsilon, EntriesOf(wo));
    }
  }

  lemma OutputStepLowers(p: Problem, w: Params, g: Entries, lr: real, eps: real, wo: Entries)
    requires p.n > 0 && p.o > 0 && lr > 0.0 && eps > 0.0
    requires Agree(p.h, p.o, g, Gradient(p, w).wo) && Agree(p.h, p.o, wo, Plus(w.wo, Adam.AdamMove(lr, eps, g)))
    requires Times(lr, Descent.SquaredNorm(p.n, p.h, Hidden(p, w))) < 2.0 * Times(Count(p), eps)
    ensures (exists i, j :: 0 <= i < p.h && 0 <= j < p.o && Gradient(p, w).wo(i, j) != 0.0) ==>
      Loss(p, w.(wo := wo)) < Loss(p, w)
  {
    var exact := Gradient(p, w).wo;
    SameMove(p, w, g, exact, lr, eps, wo);
    if i, j :| 0 <= i < p.h && 0 <= j < p.o && exact(i, j) != 0.0 {
      Adam.AdamLowersLoss(p, w, lr, eps, i, j);
    }
  }

  lemma SameMatrix(m: Matrix, rows: nat, columns: nat, w: Entries, lr: real, eps: real, g: Entries, exact: Entries)
    requires Agree(rows, columns, g, exact) && Holds(m, rows, columns, Plus(w, Adam.AdamMove(lr, eps, g)))
    ensures Agree(rows, columns, EntriesOf(m), Plus(w, Adam.AdamMove(lr, eps, exact)))
  {
    var a, b := Plus(w, Adam.AdamMove(lr, eps, g)), Plus(w, Adam.AdamMove(lr, eps, exact));
    HoldsAgree(m, rows, columns, a);
    forall i, j | 0 <= i < rows && 0 <= j < columns ensures EntriesOf(m)(i, j) == b(i, j) {
      assert EntriesOf(m)(i, j) == a(i, j) && g(i, j) == exact(i, j);
    }
  }

  /** Forward, backward and one Adam step of all four matrices, as the probe runs them: the result has the entries of
      the exact Adam step, and its loss is strictly lower for every learning rate up to the computed one. */
  method StepAllMatrices(exp: real -> real, sqrt: real -> real, x: Matrix, target: Matrix, w: Weights, s: AdamSettings)
    returns (updated: Weights)
    requires IsExp(exp) && Adam.IsSqrt(sqrt) && WellShaped(x, target, w) && s.beta1 != 1.0 && s.beta2 != 1.0
    ensures var p := ProblemOf(exp, sqrt, x, target, w);
      Derivative.SameEntries(p, ParamsOf(updated),
        Derivative.AdamStepped(s.learningRate, s.epsilon, ParamsOf(w), Gradient(p, ParamsOf(w))))
    ensures var p, pw := ProblemOf(exp, sqrt, x, target, w), ParamsOf(w);
      Expansion.NearOne(exp) && s.epsilon > 0.0 && Derivative.HasSlope(p, Gradient(p, pw)) ==>
        (0.0 < s.learningRate <= Derivative.AdamRadius(p, pw, s.epsilon) ==> Loss(p, ParamsOf(updated)) < Loss(p, pw))
  {
    ghost var p := ProblemOf(exp, sqrt, x, target, w);
    ghost var pw, exact := ParamsOf(w), Gradient(p, ParamsOf(w));
    var c := ForwardFullSequence(exp, sqrt, x, target, w);
    var g := BackwardPass(exp, sqrt, x, target, w, c);
    var d, e, h, o := |x[0]|, |w.wq[0]|, |w.wv[0]|, |w.wo[0]|;
    updated := AdamStep(sqrt, s, w, g, d, e, h, o);
    HoldsAgree(g.wq, d, e, exact.wq);
    HoldsAgree(g.wk, d, e, exact.wk);
    HoldsAgree(g.wv, d, h, exact.wv);
    HoldsAgree(g.wo, h, o, exact.wo);
    SameMatrix(updated.wq, d, e, pw.wq, s.learningRate, s.epsilon, EntriesOf(g.wq), exact.wq);
    SameMatrix(updated.wk, d, e, pw.wk, s.learningRate, s.epsilon, EntriesOf(g.wk), exact.wk);
    SameMatrix(updated.wv, d, h, pw.wv, s.learningRate, s.epsilon, EntriesOf(g.wv), exact.wv);
    SameMatrix(updated.wo, h, o, pw.wo, s.learningRate, s.epsilon, EntriesOf(g.wo), exact.wo);
    if Expansion.NearOne(exp) && s.epsilon > 0.0 && Derivative.HasSlope(p, exact) {
      Derivative.AdamStepLowersLoss(p, pw, s.learningRate, s.epsilon, ParamsOf(updated));
    }
  }
}
