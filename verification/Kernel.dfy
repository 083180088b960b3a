/** The attention kernel as the program computes it: loops that fill matrices entry by entry, a full-sequence forward
    pass, a token-by-token forward pass over a growing cache, a backward pass and an Adam step. Each is proved to
    compute the algebra of module Attention, for every sequence length, width and weight matrix. */
module Kernel {
  import opened Sums
  import opened Attention
  import opened Matrices
  import opened Softmax
  import Adam
  import Gradients

  datatype Weights = Weights(wq: Matrix, wk: Matrix, wv: Matrix, wo: Matrix)

  datatype Cache = Cache(
    q: Matrix, k: Matrix, v: Matrix, scores: Matrix, attention: Matrix, hidden: Matrix, y: Matrix, loss: real)

  /** The shapes under which the matrix operations fit together; no matrix is empty. */
  ghost predicate WellShaped(x: Matrix, target: Matrix, w: Weights) {
    && x != [] && x[0] != [] && w.wq != [] && w.wq[0] != []
    && w.wv != [] && w.wv[0] != [] && w.wo != [] && w.wo[0] != []
    && IsMatrix(x, |x|, |x[0]|)
    && IsMatrix(target, |x|, |w.wo[0]|)
    && IsMatrix(w.wq, |x[0]|, |w.wq[0]|)
    && IsMatrix(w.wk, |x[0]|, |w.wq[0]|)
    && IsMatrix(w.wv, |x[0]|, |w.wv[0]|)
    && IsMatrix(w.wo, |w.wv[0]|, |w.wo[0]|)
  }

  /** The problem that lists of numbers pose; scores are scaled by one over the root of the input width. */
  function ProblemOf(exp: real -> real, sqrt: real -> real, x: Matrix, target: Matrix, w: Weights): Problem
    requires x != [] && w.wq != [] && w.wv != [] && w.wo != []
  {
    Problem(|x|, |x[0]|, |w.wq[0]|, |w.wv[0]|, |w.wo[0]|, EntriesOf(x), EntriesOf(target),
            Over(1.0, sqrt(|x[0]| as real)), exp)
  }

  function ParamsOf(w: Weights): Params {
    Params(EntriesOf(w.wq), EntriesOf(w.wk), EntriesOf(w.wv), EntriesOf(w.wo))
  }

  lemma WeightsHold(m: Matrix, rows: int, columns: int)
    requires IsMatrix(m, rows, columns)
    ensures Holds(m, rows, columns, EntriesOf(m))
  {
  }

  // ---- softmax of a list ----

  function MaxOf(values: Vector): (m: real)
    requires values != []
    ensures m in values && forall v :: v in values ==> v <= m
  {
    if |values| == 1 then values[0]
    else
      var rest := MaxOf(values[1..]);
      assert forall v :: v in values ==> v == values[0] || v in values[1..];
      if values[0] < rest then rest else values[0]
  }

  function SoftmaxOf(exp: real -> real, values: Vector): Vector
    requires values != []
  {
    var maximum := MaxOf(values);
    var exps := seq(|values|, (i: int) requires 0 <= i < |values| => exp(values[i] - maximum));
    var total := Sum(|exps|, (i: int) => Get(exps, i));
    seq(|exps|, (i: int) requires 0 <= i < |exps| => Over(exps[i], total))
  }

  /** Subtracting the maximum first does not change the softmax of a row of scores. */
  lemma SoftmaxOfRow(exp: real -> real, values: Vector, s: Entries, i: nat)
    requires IsExp(exp) && |values| == i + 1
    requires forall j :: 0 <= j <= i ==> values[j] == s(i, j)
    ensures |SoftmaxOf(exp, values)| == i + 1
    ensures forall j :: 0 <= j <= i ==> SoftmaxOf(exp, values)[j] == CausalSoftmax(exp, s)(i, j)
  {
    var m := MaxOf(values);
    var shifted: Entries := (r: int, c: int) => s(r, c) - m;
    ShiftInvariance(exp, s, shifted, m, i);
    var exps := seq(|values|, (k: int) requires 0 <= k < |values| => exp(values[k] - m));
    forall k | 0 <= k <= i ensures exps[k] == Exps(exp, shifted)(i, k) {
      assert shifted(i, k) == values[k] - m;
    }
    NormaliserOfRow(exp, exps, shifted, i);
    forall j | 0 <= j <= i ensures SoftmaxOf(exp, values)[j] == CausalSoftmax(exp, shifted)(i, j) {
      assert SoftmaxOf(exp, values)[j] == Over(exps[j], Sum(|exps|, (k: int) => Get(exps, k)));
    }
  }

  lemma NormaliserOfRow(exp: real -> real, exps: Vector, s: Entries, i: nat)
    requires |exps| == i + 1
    requires forall k :: 0 <= k <= i ==> exps[k] == Exps(exp, s)(i, k)
    ensures Sum(|exps|, (k: int) => Get(exps, k)) == Normaliser(exp, s, i)
  {
    var u := Exps(exp, s);
    SumExt(i + 1, (k: int) => Get(exps, k), (k: int) => u(i, k));
  }

  // ---- loss ----

  /** Entries in the first rows rows. */
  function Cells(rows: nat, width: nat): nat {
    if rows == 0 then 0 else Cells(rows - 1, width) + width
  }

  lemma {:induction false} CellsIsProduct(rows: nat, width: nat)
    ensures Cells(rows, width) == rows * width
  {
    if rows > 0 {
      CellsIsProduct(rows - 1, width);
    }
  }

  lemma SquareTerm(p: Problem, y: Entries, value: real, wanted: real, i: int, j: int)
    requires value == y(i, j) && wanted == p.target(i, j)
    ensures Times(Times(0.5, value - wanted), value - wanted) == HalfSquare(y, p.target)(i, j)
  {
  }

  lemma LossOfTotals(p: Problem, y: Entries, rows: int -> real, total: real, count: nat)
    requires forall i :: 0 <= i < p.n ==> rows(i) == RowSum(p.o, HalfSquare(y, p.target), i)
    requires total == Sum(p.n, rows) && count == Cells(p.n, p.o)
    ensures Over(total, count as real) == MeanSquare(p, y)
  {
    CellsIsProduct(p.n, p.o);
    var sq := HalfSquare(y, p.target);
    SumExt(p.n, rows, (i: int) => RowSum(p.o, sq, i));
  }

  method MseLoss(values: Matrix, target: Matrix, ghost p: Problem, ghost y: Entries) returns (loss: real)
    requires p.n > 0 && p.o > 0 && Holds(values, p.n, p.o, y) && Holds(target, p.n, p.o, p.target)
    ensures loss == MeanSquare(p, y)
  {
    ghost var sq := HalfSquare(y, p.target);
    ghost var rows: int -> real := (i: int) => RowSum(p.o, sq, i);
    var total := 0.0;
    var count := 0;
    for row := 0 to |values|
      invariant total == Sum(row, rows)
      invariant count == Cells(row, p.o)
    {
      total, count := AddRow(values[row], target[row], total, count, p, y, row);
    }
    LossOfTotals(p, y, rows, total, count);
    loss := Over(total, count as real);
  }

  /** The inner loop of the loss, over the columns of one row. */
  method AddRow(
      values: Vector, target: Vector, before: real, counted: nat, ghost p: Problem, ghost y: Entries, ghost row: nat)
    returns (total: real, count: nat)
    requires |values| == |target| == p.o
    requires forall j :: 0 <= j < p.o ==> values[j] == y(row, j) && target[j] == p.target(row, j)
    ensures total == before + RowSum(p.o, HalfSquare(y, p.target), row)
    ensures count == counted + p.o
  {
    ghost var sq := HalfSquare(y, p.target);
    ghost var columns: int -> real := (j: int) => sq(row, j);
    total := before;
    count := counted;
    for column := 0 to |values|
      invariant total == before + Sum(column, columns)
      invariant count == counted + column
    {
      var diff := values[column] - target[column];
      SquareTerm(p, y, values[column], target[column], row, column);
      total := total + Times(Times(0.5, diff), diff);
      count := count + 1;
    }
    assert RowSum(p.o, sq, row) == Sum(p.o, columns);
  }

  // ---- forward, full sequence ----

  /** What the forward pass hands to the backward pass. */
  ghost predicate IsForward(p: Problem, w: Params, c: Cache) {
    && Holds(c.q, p.n, p.e, Query(p, w))
    && Holds(c.k, p.n, p.e, Key(p, w))
    && Holds(c.v, p.n, p.h, Value(p, w))
    && Holds(c.attention, p.n, p.n, Weight(p, w))
    && Holds(c.hidden, p.n, p.h, Hidden(p, w))
    && Holds(c.y, p.n, p.o, Output(p, w))
    && IsMatrix(c.scores, p.n, p.n)
    && (forall i, j :: 0 <= i < p.n && 0 <= j < p.n ==>
          c.scores[i][j] == if j <= i then Score(p.e, p.scale, Query(p, w), Key(p, w))(i, j) else 0.0)
    && c.loss == Loss(p, w)
  }

  /** Well-shaped inputs, and what a forward pass over them leaves. */
  ghost predicate IsCacheOf(exp: real -> real, sqrt: real -> real, x: Matrix, target: Matrix, w: Weights, c: Cache) {
    WellShaped(x, target, w) && IsForward(ProblemOf(exp, sqrt, x, target, w), ParamsOf(w), c)
  }

  lemma ScoreEntry(p: Problem, w: Params, q: Vector, k: Vector, i: int, j: int)
    requires |q| == |k| == p.e
    requires forall t :: 0 <= t < p.e ==> q[t] == Query(p, w)(i, t) && k[t] == Key(p, w)(j, t)
    ensures Times(Dot(q, k), p.scale) == Score(p.e, p.scale, Query(p, w), Key(p, w))(i, j)
  {
    var qe, fk := Query(p, w), Flip(Key(p, w));
    forall t | 0 <= t < p.e ensures Times(qe(i, t), fk(t, j)) == Times(q[t], k[t]) {
      assert fk(t, j) == Key(p, w)(j, t);
    }
    DotIsSum(q, k, p.e, (t: int) => Times(qe(i, t), fk(t, j)));
  }

  // ---- the forward pass in the numbers of the lists ----

  /** The scale undoes the root of the width. */
  lemma ScaleIsInverseRoot(root: real)
    requires root != 0.0
    ensures Times(Over(1.0, root), root) == 1.0
  {
    OverTimes(1.0, root);
  }

  /** A score is the dot product of a query and a key, divided by the root of the width. */
  lemma ScoreTimesRoot(root: real, dot: real)
    requires root != 0.0
    ensures Times(Times(dot, Over(1.0, root)), root) == dot
  {
    ScaleIsInverseRoot(root);
    Reassociate(dot, Over(1.0, root), root);
    TimesOne(dot);
  }

  lemma ProductWrittenOut(m: Matrix, a: Matrix, b: Matrix, rows: int, inner: nat, columns: int, f: Entries, g: Entries)
    requires Holds(a, rows, inner, f) && Holds(b, inner, columns, g) && Holds(m, rows, columns, Mul(inner, f, g))
    ensures forall i, j :: 0 <= i < rows && 0 <= j < columns ==>
      m[i][j] == Sum(inner, (l: int) => Times(At(a, i, l), At(b, l, j)))
  {
    forall i, j | 0 <= i < rows && 0 <= j < columns
      ensures m[i][j] == Sum(inner, (l: int) => Times(At(a, i, l), At(b, l, j)))
    {
      SumExt(inner, (l: int) => Times(f(i, l), g(l, j)), (l: int) => Times(At(a, i, l), At(b, l, j)));
      assert m[i][j] == Mul(inner, f, g)(i, j) == Prod(inner, f, g, i, j);
    }
  }

  lemma ScoresWrittenOut(root: real, p: Problem, w: Params, c: Cache)
    requires IsForward(p, w, c) && p.scale == Over(1.0, root) && root != 0.0
    ensures forall i, j :: 0 <= j <= i < p.n ==> Times(c.scores[i][j], root) == Dot(c.q[i], c.k[j])
  {
    forall i, j | 0 <= j <= i < p.n ensures Times(c.scores[i][j], root) == Dot(c.q[i], c.k[j]) {
      ScoreEntry(p, w, c.q[i], c.k[j], i, j);
      ScoreTimesRoot(root, Dot(c.q[i], c.k[j]));
    }
  }

  /** Two quotients with one denominator are to each other as their numerators. */
  lemma SameDenominator(a: real, b: real, z: real)
    ensures Times(Over(a, z), b) == Times(Over(b, z), a)
  {
    if z != 0.0 {
      Reciprocal(a, z);
      Reciprocal(b, z);
      Reassociate(1.0 / z, a, b);
    }
  }

  /** Every row of the attention is the distribution over the tokens so far in which weights are to each other as the
      exponentials of their scores; there is only one such distribution. */
  ghost predicate IsCausalAttention(exp: real -> real, scores: Matrix, attention: Matrix, n: nat)
    requires IsMatrix(scores, n, n) && IsMatrix(attention, n, n)
  {
    && (forall i, j :: 0 <= i < j < n ==> attention[i][j] == 0.0)
    && (forall i, j :: 0 <= j <= i < n ==> attention[i][j] > 0.0)
    && (forall i, j, k :: 0 <= j <= i < n && 0 <= k <= i ==>
          Times(attention[i][j], exp(scores[i][k])) == Times(attention[i][k], exp(scores[i][j])))
    && (forall i :: 0 <= i < n ==> var row := attention[i]; Sum(i + 1, (j: int) => Get(row, j)) == 1.0)
  }

  lemma AttentionWrittenOut(p: Problem, w: Params, c: Cache)
    requires IsExp(p.exp) && IsForward(p, w, c)
    ensures IsCausalAttention(p.exp, c.scores, c.attention, p.n)
  {
    var s := Score(p.e, p.scale, Query(p, w), Key(p, w));
    var a := CausalSoftmax(p.exp, s);
    forall i | 0 <= i < p.n
      ensures forall j :: 0 <= j <= i ==> c.attention[i][j] > 0.0
      ensures var row := c.attention[i]; Sum(i + 1, (j: int) => Get(row, j)) == 1.0
    {
      var row := c.attention[i];
      RowIsDistribution(p.exp, s, i);
      SumExt(i + 1, (j: int) => a(i, j), (j: int) => Get(row, j));
    }
    forall i, j, k | 0 <= j <= i < p.n && 0 <= k <= i
      ensures Times(c.attention[i][j], p.exp(c.scores[i][k])) == Times(c.attention[i][k], p.exp(c.scores[i][j]))
    {
      SameDenominator(p.exp(s(i, j)), p.exp(s(i, k)), Normaliser(p.exp, s, i));
    }
  }

  /** Half the square of every difference, over all entries. */
  lemma LossWrittenOut(p: Problem, y: Matrix, target: Matrix, ye: Entries, loss: real)
    requires p.n > 0 && p.o > 0 && Holds(y, p.n, p.o, ye) && Holds(target, p.n, p.o, p.target)
    requires loss == MeanSquare(p, ye)
    ensures Times(loss, (p.n * p.o) as real) == Sum(p.n, (i: int) => Sum(p.o, (j: int) =>
      0.5 * (At(y, i, j) - At(target, i, j)) * (At(y, i, j) - At(target, i, j))))
  {
    var sq := HalfSquare(ye, p.target);
    var rows := (i: int) => Sum(p.o, (j: int) =>
      0.5 * (At(y, i, j) - At(target, i, j)) * (At(y, i, j) - At(target, i, j)));
    forall i | 0 <= i < p.n ensures rows(i) == RowSum(p.o, sq, i) {
      SumExt(p.o, (j: int) => 0.5 * (At(y, i, j) - At(target, i, j)) * (At(y, i, j) - At(target, i, j)),
        (j: int) => sq(i, j));
    }
    SumExt(p.n, rows, (i: int) => RowSum(p.o, sq, i));
    Gradients.CountPositive(p);
    OverTimes(Sum(p.n, (i: int) => RowSum(p.o, sq, i)), Count(p));
  }

  /** Queries, keys and values are products of x with a matrix; hidden and y are products again. */
  lemma ProductsWrittenOut(exp: real -> real, sqrt: real -> real, x: Matrix, target: Matrix, w: Weights, c: Cache)
    requires IsCacheOf(exp, sqrt, x, target, w, c)
    ensures forall i, t :: 0 <= i < |x| && 0 <= t < |w.wq[0]| ==>
      c.q[i][t] == Sum(|x[0]|, (l: int) => Times(At(x, i, l), At(w.wq, l, t)))
    ensures forall i, t :: 0 <= i < |x| && 0 <= t < |w.wq[0]| ==>
      c.k[i][t] == Sum(|x[0]|, (l: int) => Times(At(x, i, l), At(w.wk, l, t)))
    ensures forall i, t :: 0 <= i < |x| && 0 <= t < |w.wv[0]| ==>
      c.v[i][t] == Sum(|x[0]|, (l: int) => Times(At(x, i, l), At(w.wv, l, t)))
    ensures forall i, t :: 0 <= i < |x| && 0 <= t < |w.wv[0]| ==>
      c.hidden[i][t] == Sum(|x|, (l: int) => Times(At(c.attention, i, l), At(c.v, l, t)))
    ensures forall i, t :: 0 <= i < |x| && 0 <= t < |w.wo[0]| ==>
      c.y[i][t] == Sum(|w.wv[0]|, (l: int) => Times(At(c.hidden, i, l), At(w.wo, l, t)))
  {
    var p, pw := ProblemOf(exp, sqrt, x, target, w), ParamsOf(w);
    ProductWrittenOut(c.q, x, w.wq, p.n, p.d, p.e, p.x, pw.wq);
    ProductWrittenOut(c.k, x, w.wk, p.n, p.d, p.e, p.x, pw.wk);
    ProductWrittenOut(c.v, x, w.wv, p.n, p.d, p.h, p.x, pw.wv);
    ProductWrittenOut(c.hidden, c.attention, c.v, p.n, p.n, p.h, Weight(p, pw), Value(p, pw));
    ProductWrittenOut(c.y, c.hidden, w.wo, p.n, p.h, p.o, Hidden(p, pw), pw.wo);
  }

  /** Scores are dot products divided by the root of the width, under the causal mask; attention is their softmax; the
      loss is the mean over all entries of half the squared error. */
  lemma ForwardWrittenOut(exp: real -> real, sqrt: real -> real, x: Matrix, target: Matrix, w: Weights, c: Cache)
    requires IsExp(exp) && IsCacheOf(exp, sqrt, x, target, w, c)
    ensures sqrt(|x[0]| as real) != 0.0 ==> forall i, j :: 0 <= j <= i < |x| ==>
      Times(c.scores[i][j], sqrt(|x[0]| as real)) == Dot(c.q[i], c.k[j])
    ensures forall i, j :: 0 <= i < j < |x| ==> c.scores[i][j] == 0.0
    ensures IsCausalAttention(exp, c.scores, c.attention, |x|)
    ensures Times(c.loss, (|x| * |w.wo[0]|) as real) == Sum(|x|, (i: int) => Sum(|w.wo[0]|, (j: int) =>
      0.5 * (At(c.y, i, j) - At(target, i, j)) * (At(c.y, i, j) - At(target, i, j))))
  {
    var p, pw := ProblemOf(exp, sqrt, x, target, w), ParamsOf(w);
    if sqrt(|x[0]| as real) != 0.0 {
      ScoresWrittenOut(sqrt(|x[0]| as real), p, pw, c);
    }
    AttentionWrittenOut(p, pw, c);
    LossWrittenOut(p, c.y, target, Output(p, pw), c.loss);
  }

  // ---- the matrices, filled entry by entry ----

  /** The scores and the attention of the first row rows. */
  method FillAttention(p: Problem, w: Weights, q: Matrix, k: Matrix) returns (scores: Matrix, attention: Matrix)
    requires IsExp(p.exp) && p.n > 0
    requires Holds(q, p.n, p.e, Query(p, ParamsOf(w))) && Holds(k, p.n, p.e, Key(p, ParamsOf(w)))
    ensures IsMatrix(scores, p.n, p.n)
    ensures forall i, j :: 0 <= i < p.n && 0 <= j < p.n ==>
      scores[i][j] == if j <= i then Score(p.e, p.scale, Query(p, ParamsOf(w)), Key(p, ParamsOf(w)))(i, j) else 0.0
    ensures Holds(attention, p.n, p.n, Weight(p, ParamsOf(w)))
  {
    ghost var s := Score(p.e, p.scale, Query(p, ParamsOf(w)), Key(p, ParamsOf(w)));
    ghost var a := CausalSoftmax(p.exp, s);
    scores := Zeros(p.n, p.n);
    attention := Zeros(p.n, p.n);
    for row := 0 to p.n
      invariant IsMatrix(scores, p.n, p.n) && IsMatrix(attention, p.n, p.n)
      invariant forall i, j :: 0 <= i < p.n && 0 <= j < p.n ==>
        scores[i][j] == if i < row && j <= i then s(i, j) else 0.0
      invariant forall i, j :: 0 <= i < p.n && 0 <= j < p.n ==>
        attention[i][j] == if i < row then a(i, j) else 0.0
    {
      var rowScores: Vector := [];
      for column := 0 to row + 1
        invariant IsMatrix(scores, p.n, p.n)
        invariant |rowScores| == column && forall j :: 0 <= j < column ==> rowScores[j] == s(row, j)
        invariant forall i, j :: 0 <= i < p.n && 0 <= j < p.n ==>
          scores[i][j] == if (i < row && j <= i) || (i == row && j < column) then s(i, j) else 0.0
      {
        ScoreEntry(p, ParamsOf(w), q[row], k[column], row, column);
        var score := Times(Dot(q[row], k[column]), p.scale);
        PutHolds(scores, p.n, p.n, row, column, score);
        scores := Put(scores, row, column, score);
        rowScores := rowScores + [score];
      }
      SoftmaxOfRow(p.exp, rowScores, s, row);
      var rowAttention := SoftmaxOf(p.exp, rowScores);
      for column := 0 to |rowAttention|
        invariant IsMatrix(attention, p.n, p.n)
        invariant forall i, j :: 0 <= i < p.n && 0 <= j < p.n ==>
          attention[i][j] == if i < row || (i == row && j < column) then a(i, j) else 0.0
      {
        PutHolds(attention, p.n, p.n, row, column, rowAttention[column]);
        attention := Put(attention, row, column, rowAttention[column]);
      }
      assert forall j :: row < j < p.n ==> a(row, j) == 0.0;
    }
  }

  method ForwardFullSequence(exp: real -> real, sqrt: real -> real, x: Matrix, target: Matrix, w: Weights)
    returns (c: Cache)
    requires IsExp(exp) && WellShaped(x, target, w)
    ensures IsCacheOf(exp, sqrt, x, target, w, c)
    ensures sqrt(|x[0]| as real) != 0.0 ==> forall i, j :: 0 <= j <= i < |x| ==>
      Times(c.scores[i][j], sqrt(|x[0]| as real)) == Dot(c.q[i], c.k[j])
    ensures forall i, j :: 0 <= i < j < |x| ==> c.scores[i][j] == 0.0
    ensures IsCausalAttention(exp, c.scores, c.attention, |x|)
  {
    var p := ProblemOf(exp, sqrt, x, target, w);
    ghost var pw := ParamsOf(w);
    WeightsHold(w.wq, p.d, p.e);
    WeightsHold(w.wk, p.d, p.e);
    WeightsHold(w.wv, p.d, p.h);
    WeightsHold(w.wo, p.h, p.o);
    var q := Matmul(x, w.wq);
    var k := Matmul(x, w.wk);
    var v := Matmul(x, w.wv);
    MatmulHolds(x, w.wq, p.n, p.d, p.e, p.x, pw.wq);
    MatmulHolds(x, w.wk, p.n, p.d, p.e, p.x, pw.wk);
    MatmulHolds(x, w.wv, p.n, p.d, p.h, p.x, pw.wv);
    var scores, attention := FillAttention(p, w, q, k);
    var hidden := Matmul(attention, v);
    MatmulHolds(attention, v, p.n, p.n, p.h, Weight(p, pw), Value(p, pw));
    var y := Matmul(hidden, w.wo);
    MatmulHolds(hidden, w.wo, p.n, p.h, p.o, Hidden(p, pw), pw.wo);
    var loss := MseLoss(y, target, p, Output(p, pw));
    c := Cache(q, k, v, scores, attention, hidden, y, loss);
    ForwardWrittenOut(exp, sqrt, x, target, w, c);
  }

  // ---- forward, token by token ----

  /** A hidden entry summed over the cached values only equals the product with the zero-padded attention row. */
  lemma TruncatedHidden(p: Problem, w: Params, attn: Vector, values: Matrix, i: nat, dim: int, f: int -> real)
    requires i < p.n && |attn| == |values| == i + 1
    requires forall j :: 0 <= j <= i ==> attn[j] == Weight(p, w)(i, j) && At(values, j, dim) == Value(p, w)(j, dim)
    requires forall j :: 0 <= j <= i ==> f(j) == Times(attn[j], At(values, j, dim))
    ensures Sum(i + 1, f) == Hidden(p, w)(i, dim)
  {
    var a, v := Weight(p, w), Value(p, w);
    var g: int -> real := (j: int) => Times(a(i, j), v(j, dim));
    forall j | i + 1 <= j < p.n ensures g(j) == 0.0 {
      TimesZero(v(j, dim));
    }
    SumTail(i + 1, p.n, g);
    SumExt(i + 1, f, g);
  }

  /** One token: its query against every cached key, its attention over every cached value. */
  method AttendToken(p: Problem, w: Weights, token: Vector, keys: Matrix, values: Matrix, position: nat)
    returns (output: Vector, ghost logits: Vector)
    requires IsExp(p.exp) && position < p.n && p.d > 0 && p.e > 0 && p.h > 0
    requires IsMatrix(w.wq, p.d, p.e) && IsMatrix(w.wo, p.h, p.o)
    requires |token| == p.d && forall l :: 0 <= l < p.d ==> token[l] == p.x(position, l)
    requires Holds(keys, position + 1, p.e, Key(p, ParamsOf(w)))
    requires Holds(values, position + 1, p.h, Value(p, ParamsOf(w)))
    ensures |output| == p.o && forall j :: 0 <= j < p.o ==> output[j] == Output(p, ParamsOf(w))(position, j)
    ensures |logits| == position + 1 && forall j :: 0 <= j <= position ==>
      logits[j] == Score(p.e, p.scale, Query(p, ParamsOf(w)), Key(p, ParamsOf(w)))(position, j)
  {
    ghost var pw := ParamsOf(w);
    ghost var s := Score(p.e, p.scale, Query(p, pw), Key(p, pw));
    WeightsHold(w.wq, p.d, p.e);
    WeightsHold(w.wo, p.h, p.o);
    var q := Vecmat(token, w.wq);
    VecmatEntry(token, w.wq, p.d, p.e, p.x, pw.wq, position);
    var row := seq(position + 1,
      (index: int) requires 0 <= index < position + 1 => Times(Dot(q, keys[index]), p.scale));
    forall index | 0 <= index <= position ensures row[index] == s(position, index) {
      ScoreEntry(p, pw, q, keys[index], position, index);
    }
    SoftmaxOfRow(p.exp, row, s, position);
    var attn := SoftmaxOf(p.exp, row);
    logits := row;
    var hidden := seq(|values[0]|, (dim: int) requires 0 <= dim < |values[0]| =>
      Sum(position + 1, (index: int) => Times(Get(attn, index), At(values, index, dim))));
    forall dim | 0 <= dim < p.h ensures hidden[dim] == Hidden(p, pw)(position, dim) {
      TruncatedHidden(p, pw, attn, values, position, dim,
        (index: int) => Times(Get(attn, index), At(values, index, dim)));
    }
    VecmatEntry(hidden, w.wo, p.h, p.o, Hidden(p, pw), pw.wo, position);
    output := Vecmat(hidden, w.wo);
  }

  /** Rows of growing length hold the lower triangle of f. */
  ghost predicate HoldsLower(m: Matrix, f: Entries) {
    && (forall i :: 0 <= i < |m| ==> |m[i]| == i + 1)
    && (forall i, j :: 0 <= j <= i < |m| ==> m[i][j] == f(i, j))
  }

  lemma HoldsLowerAppend(m: Matrix, f: Entries, row: Vector)
    requires HoldsLower(m, f) && |row| == |m| + 1 && forall j :: 0 <= j <= |m| ==> row[j] == f(|m|, j)
    ensures HoldsLower(m + [row], f)
  {
  }

  /** A logit is the dot product of the query of one token and the key of another, divided by the root of the width. */
  lemma LogitsWrittenOut(root: real, p: Problem, w: Weights, x: Matrix, logits: Matrix)
    requires root != 0.0 && p.scale == Over(1.0, root) && p.d > 0
    requires IsMatrix(w.wq, p.d, p.e) && IsMatrix(w.wk, p.d, p.e) && Holds(x, p.n, p.d, p.x) && |logits| == p.n
    requires HoldsLower(logits, Score(p.e, p.scale, Query(p, ParamsOf(w)), Key(p, ParamsOf(w))))
    ensures forall i, j :: 0 <= j <= i < p.n ==>
      Times(logits[i][j], root) == Dot(Vecmat(x[i], w.wq), Vecmat(x[j], w.wk))
  {
    var pw := ParamsOf(w);
    WeightsHold(w.wq, p.d, p.e);
    WeightsHold(w.wk, p.d, p.e);
    forall i, j | 0 <= j <= i < p.n ensures Times(logits[i][j], root) == Dot(Vecmat(x[i], w.wq), Vecmat(x[j], w.wk)) {
      var q, k := Vecmat(x[i], w.wq), Vecmat(x[j], w.wk);
      VecmatEntry(x[i], w.wq, p.d, p.e, p.x, pw.wq, i);
      VecmatEntry(x[j], w.wk, p.d, p.e, p.x, pw.wk, j);
      ScoreEntry(p, pw, q, k, i, j);
      ScoreTimesRoot(root, Dot(q, k));
    }
  }

  /** The loop over the tokens, with its two growing caches. */
  method AttendTokens(p: Problem, w: Weights, x: Matrix) returns (y: Matrix, ghost logits: Matrix)
    requires IsExp(p.exp) && p.d > 0 && p.e > 0 && p.h > 0 && |x| == p.n
    requires IsMatrix(w.wq, p.d, p.e) && IsMatrix(w.wk, p.d, p.e) && IsMatrix(w.wv, p.d, p.h)
    requires IsMatrix(w.wo, p.h, p.o) && Holds(x, p.n, p.d, p.x)
    ensures Holds(y, p.n, p.o, Output(p, ParamsOf(w)))
    ensures |logits| == p.n
    ensures HoldsLower(logits, Score(p.e, p.scale, Query(p, ParamsOf(w)), Key(p, ParamsOf(w))))
  {
    ghost var pw := ParamsOf(w);
    ghost var s := Score(p.e, p.scale, Query(p, pw), Key(p, pw));
    WeightsHold(w.wk, p.d, p.e);
    WeightsHold(w.wv, p.d, p.h);
    var keys: Matrix := [];
    var values: Matrix := [];
    y := [];
    logits := [];
    for position := 0 to |x|
      invariant |logits| == position && HoldsLower(logits, s)
      invariant Holds(keys, position, p.e, Key(p, pw))
      invariant Holds(values, position, p.h, Value(p, pw))
      invariant Holds(y, position, p.o, Output(p, pw))
    {
      var token := x[position];
      VecmatEntry(token, w.wk, p.d, p.e, p.x, pw.wk, position);
      VecmatEntry(token, w.wv, p.d, p.h, p.x, pw.wv, position);
      HoldsAppend(keys, position, p.e, Key(p, pw), Vecmat(token, w.wk));
      keys := keys + [Vecmat(token, w.wk)];
      HoldsAppend(values, position, p.h, Value(p, pw), Vecmat(token, w.wv));
      values := values + [Vecmat(token, w.wv)];
      var output, row := AttendToken(p, w, token, keys, values, position);
      HoldsLowerAppend(logits, s, row);
      logits := logits + [row];
      HoldsAppend(y, position, p.o, Output(p, pw), output);
      y := y + [output];
    }
  }

  method ForwardTokenByToken(exp: real -> real, sqrt: real -> real, x: Matrix, target: Matrix, w: Weights)
    returns (y: Matrix, loss: real, ghost logits: Matrix)
    requires IsExp(exp) && WellShaped(x, target, w)
    ensures var p := ProblemOf(exp, sqrt, x, target, w);
      Holds(y, p.n, p.o, Output(p, ParamsOf(w))) && loss == Loss(p, ParamsOf(w))
    ensures |logits| == |x| && forall i :: 0 <= i < |x| ==> |logits[i]| == i + 1
    ensures sqrt(|x[0]| as real) != 0.0 ==> forall i, j :: 0 <= j <= i < |x| ==>
      Times(logits[i][j], sqrt(|x[0]| as real)) == Dot(Vecmat(x[i], w.wq), Vecmat(x[j], w.wk))
    ensures forall c :: IsCacheOf(exp, sqrt, x, target, w, c) ==> y == c.y && loss == c.loss
  {
    var p := ProblemOf(exp, sqrt, x, target, w);
    y, logits := AttendTokens(p, w, x);
    loss := MseLoss(y, target, p, Output(p, ParamsOf(w)));
    if sqrt(|x[0]| as real) != 0.0 {
      LogitsWrittenOut(sqrt(|x[0]| as real), p, w, x, logits);
    }
    forall c | IsCacheOf(exp, sqrt, x, target, w, c) ensures y == c.y && loss == c.loss {
      HoldsOnce(y, c.y, p.n, p.o, Output(p, ParamsOf(w)));
    }
  }

  function RowDelta(left: Vector, right: Vector): (delta: real)
    requires |left| == |right| > 0
    ensures forall j :: 0 <= j < |left| ==> Adam.Abs(left[j] - right[j]) <= delta
    ensures exists j :: 0 <= j < |left| && Adam.Abs(left[j] - right[j]) == delta
  {
    var deltas := seq(|left|, (j: int) requires 0 <= j < |left| => Adam.Abs(left[j] - right[j]));
    assert forall j :: 0 <= j < |left| ==> deltas[j] == Adam.Abs(left[j] - right[j]) && deltas[j] in deltas;
    MaxOf(deltas)
  }

  /** The greatest absolute difference between two matrices of the same shape. */
  function MaxDelta(left: Matrix, right: Matrix, rows: int, columns: int): (delta: real)
    requires IsMatrix(left, rows, columns) && IsMatrix(right, rows, columns)
    requires rows > 0 && columns > 0
    ensures forall i, j :: 0 <= i < rows && 0 <= j < columns ==> Adam.Abs(left[i][j] - right[i][j]) <= delta
    ensures exists i, j :: 0 <= i < rows && 0 <= j < columns && Adam.Abs(left[i][j] - right[i][j]) == delta
  {
    var deltas := seq(rows, (i: int) requires 0 <= i < rows => RowDelta(left[i], right[i]));
    assert forall i :: 0 <= i < rows ==> deltas[i] == RowDelta(left[i], right[i]) && deltas[i] in deltas;
    MaxOf(deltas)
  }

  /** The parity check of the probe: the two forward passes never differ, and neither do their losses. */
  method ForwardParity(exp: real -> real, sqrt: real -> real, x: Matrix, target: Matrix, w: Weights)
    returns (delta: real, lossDelta: real, ghost c: Cache, ghost y: Matrix, ghost loss: real)
    requires IsExp(exp) && WellShaped(x, target, w)
    ensures IsCacheOf(exp, sqrt, x, target, w, c) && IsMatrix(y, |x|, |w.wo[0]|)
    ensures delta == MaxDelta(c.y, y, |x|, |w.wo[0]|) && lossDelta == c.loss - loss
    ensures delta == 0.0 && lossDelta == 0.0
  {
    var full := ForwardFullSequence(exp, sqrt, x, target, w);
    var outputs, tokenLoss, _ := ForwardTokenByToken(exp, sqrt, x, target, w);
    c, y, loss := full, outputs, tokenLoss;
    delta := MaxDelta(full.y, outputs, |x|, |w.wo[0]|);
    lossDelta := full.loss - tokenLoss;
  }
}
