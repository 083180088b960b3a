/** The hand-written gradient is exact: evaluated on dual numbers, the forward map of the layer moves its loss by
    exactly the inner product of the gradient with the direction of the move, for all four matrices at once. */
module Gradients {
  import opened Sums
  import opened Attention
  import opened Softmax

  // ---- derivatives of the stages ----

  function ScoreTangent(e: nat, scale: real, q: Entries, tq: Entries, k: Entries, tk: Entries): Entries {
    (i: int, j: int) => Times(Prod(e, tq, Flip(k), i, j) + Prod(e, q, Flip(tk), i, j), scale)
  }

  function WeightTangent(p: Problem, w: Params, dir: Params): Entries {
    SoftmaxTangent(Weight(p, w),
      ScoreTangent(p.e, p.scale, Query(p, w), Query(p, dir), Key(p, w), Key(p, dir)))
  }

  function HiddenTangent(p: Problem, w: Params, dir: Params): Entries {
    Plus(Mul(p.n, WeightTangent(p, w, dir), Value(p, w)), Mul(p.n, Weight(p, w), Value(p, dir)))
  }

  function OutputTangent(p: Problem, w: Params, dir: Params): Entries {
    Plus(Mul(p.h, HiddenTangent(p, w, dir), w.wo), Mul(p.h, Hidden(p, w), dir.wo))
  }

  // ---- the dual evaluation computes these ----

  lemma DProdParts(
      k: nat, a: DualEntries, av: Entries, at: Entries, b: DualEntries, bv: Entries, bt: Entries, i: int, j: int)
    requires forall l :: 0 <= l < k ==> a(i, l) == Dual(av(i, l), at(i, l))
    requires forall l :: 0 <= l < k ==> b(l, j) == Dual(bv(l, j), bt(l, j))
    ensures DProd(k, a, b, i, j) == Dual(Prod(k, av, bv, i, j), Prod(k, at, bv, i, j) + Prod(k, av, bt, i, j))
  {
    var s: int -> real := (l: int) => Times(at(i, l), bv(l, j)) + Times(av(i, l), bt(l, j));
    DSumParts(k, (l: int) => DTimes(a(i, l), b(l, j)), (l: int) => Times(av(i, l), bv(l, j)), s);
    SumAdd(k, (l: int) => Times(at(i, l), bv(l, j)), (l: int) => Times(av(i, l), bt(l, j)), s);
  }

  lemma DMulParts(
      m: nat, k: nat, n: nat, a: DualEntries, av: Entries, at: Entries, b: DualEntries, bv: Entries, bt: Entries)
    requires Parts(m, k, a, av, at) && Parts(k, n, b, bv, bt)
    ensures Parts(m, n, DMul(k, a, b), Mul(k, av, bv), Plus(Mul(k, at, bv), Mul(k, av, bt)))
  {
    var ab := DMul(k, a, b);
    var v, t := Mul(k, av, bv), Plus(Mul(k, at, bv), Mul(k, av, bt));
    forall i, j | 0 <= i < m && 0 <= j < n ensures ab(i, j) == Dual(v(i, j), t(i, j)) {
      DProdParts(k, a, av, at, b, bv, bt, i, j);
    }
  }

  /** The data do not move: only the weights contribute to the derivative of x W. */
  lemma InputParts(m: nat, k: nat, n: nat, x: Entries, b: Entries, dir: Entries)
    ensures Parts(m, n, DMul(k, Lift(x), Move(b, dir)), Mul(k, x, b), Mul(k, x, dir))
  {
    var still: Entries := (i: int, j: int) => 0.0;
    var a, c := Lift(x), Move(b, dir);
    assert Parts(m, k, a, x, still);
    assert Parts(k, n, c, b, dir);
    DMulParts(m, k, n, a, x, still, c, b, dir);
    var t, s := Mul(k, x, dir), Mul(k, still, b);
    forall i, j ensures s(i, j) + t(i, j) == t(i, j) {
      forall l ensures Times(still(i, l), b(l, j)) == 0.0 {
        TimesZero(b(l, j));
      }
      SumZero(k, (l: int) => Times(still(i, l), b(l, j)));
    }
  }

  lemma DScoreParts(
    n: nat, e: nat, scale: real,
    q: DualEntries, qv: Entries, qt: Entries, k: DualEntries, kv: Entries, kt: Entries)
    requires Parts(n, e, q, qv, qt) && Parts(n, e, k, kv, kt)
    ensures Parts(n, n, DScore(e, scale, q, k), Score(e, scale, qv, kv), ScoreTangent(e, scale, qv, qt, kv, kt))
  {
    var s, v, t := DScore(e, scale, q, k), Score(e, scale, qv, kv), ScoreTangent(e, scale, qv, qt, kv, kt);
    forall i, j | 0 <= i < n && 0 <= j < n ensures s(i, j) == Dual(v(i, j), t(i, j)) {
      DProdParts(e, q, qv, qt, DFlip(k), Flip(kv), Flip(kt), i, j);
    }
  }

  lemma DSoftmaxParts(exp: real -> real, n: nat, s: DualEntries, v: Entries, t: Entries, shift: int -> Dual)
    requires IsExp(exp) && Parts(n, n, s, v, t)
    ensures Parts(n, n, DSoftmax(exp, s, shift), CausalSoftmax(exp, v), SoftmaxTangent(CausalSoftmax(exp, v), t))
  {
    var a, av, at := DSoftmax(exp, s, shift), CausalSoftmax(exp, v), SoftmaxTangent(CausalSoftmax(exp, v), t);
    forall i, j | 0 <= i < n && 0 <= j < n ensures a(i, j) == Dual(av(i, j), at(i, j)) {
      if j <= i {
        DualSoftmaxRow(exp, s, v, t, shift, i);
      } else {
        assert a(i, j) == DConst(0.0);
      }
    }
  }

  function Residual(p: Problem, y: Entries): Entries {
    (i: int, j: int) => y(i, j) - p.target(i, j)
  }

  lemma HalfSquareParts(r: real, t: real)
    ensures DTimes(DTimes(DConst(0.5), Dual(r, t)), Dual(r, t)) == Dual(Times(Times(0.5, r), r), Times(r, t))
  {
  }

  lemma RowSquareParts(p: Problem, y: DualEntries, v: Entries, t: Entries, i: int)
    requires Parts(p.n, p.o, y, v, t) && 0 <= i < p.n
    ensures DRowSum(p.o, DHalfSquare(y, p.target), i)
         == Dual(RowSum(p.o, HalfSquare(v, p.target), i), RowInner(p.o, Residual(p, v), t, i))
  {
    var sq, f, r := DHalfSquare(y, p.target), HalfSquare(v, p.target), Residual(p, v);
    forall j | 0 <= j < p.o ensures sq(i, j) == Dual(f(i, j), Times(r(i, j), t(i, j))) {
      assert y(i, j) == Dual(v(i, j), t(i, j));
      HalfSquareParts(r(i, j), t(i, j));
    }
    DSumParts(p.o, (j: int) => sq(i, j), (j: int) => f(i, j), (j: int) => Times(r(i, j), t(i, j)));
  }

  /** The residual over the count is the gradient of the loss at the output. */
  lemma OutputGradIsScaled(p: Problem, y: Entries, t: Entries)
    requires p.n > 0 && p.o > 0
    ensures Count(p) > 0.0
    ensures Inner(p.n, p.o, OutputGrad(p, y), t) == Over(Inner(p.n, p.o, Residual(p, y), t), Count(p))
  {
    var c, r, g := Count(p), Residual(p, y), OutputGrad(p, y);
    CountPositive(p);
    var s := Scaled(1.0 / c, r);
    forall i, j ensures g(i, j) == s(i, j) {
      Reciprocal(r(i, j), c);
    }
    InnerExt(p.n, p.o, g, t, s, t);
    InnerComm(p.n, p.o, s, t);
    InnerScale(p.n, p.o, t, 1.0 / c, r);
    InnerComm(p.n, p.o, t, r);
    Reciprocal(Inner(p.n, p.o, r, t), c);
  }

  lemma CountPositive(p: Problem)
    requires p.n > 0 && p.o > 0
    ensures Count(p) > 0.0
  {
    assert p.n * p.o > 0;
  }

  lemma ConstantDivisor(a: real, t: real, c: real)
    requires c > 0.0
    ensures DOver(Dual(a, t), DConst(c)) == Dual(Over(a, c), Over(t, c))
  {
    QuotientRule(a, c, t, 0.0);
  }

  lemma DMeanSquareParts(p: Problem, y: DualEntries, v: Entries, t: Entries)
    requires p.n > 0 && p.o > 0
    requires Parts(p.n, p.o, y, v, t)
    ensures DMeanSquare(p, y) == Dual(MeanSquare(p, v), Inner(p.n, p.o, OutputGrad(p, v), t))
  {
    var sq, f, r := DHalfSquare(y, p.target), HalfSquare(v, p.target), Residual(p, v);
    forall i | 0 <= i < p.n ensures DRowSum(p.o, sq, i) == Dual(RowSum(p.o, f, i), RowInner(p.o, r, t, i)) {
      RowSquareParts(p, y, v, t, i);
    }
    DSumParts(p.n, (i: int) => DRowSum(p.o, sq, i), (i: int) => RowSum(p.o, f, i), (i: int) => RowInner(p.o, r, t, i));
    OutputGradIsScaled(p, v, t);
    ConstantDivisor(Sum(p.n, (i: int) => RowSum(p.o, f, i)), Inner(p.n, p.o, r, t), Count(p));
  }

  /** Value and derivative of the loss, read off the dual evaluation. */
  lemma {:induction false} DLossParts(p: Problem, w: Params, dir: Params, shift: int -> Dual)
    requires p.n > 0 && p.o > 0 && IsExp(p.exp)
    ensures DLoss(p, w, dir, shift)
         == Dual(Loss(p, w), Inner(p.n, p.o, OutputGrad(p, Output(p, w)), OutputTangent(p, w, dir)))
  {
    var x := Lift(p.x);
    var q, k, v := DMul(p.d, x, Move(w.wq, dir.wq)), DMul(p.d, x, Move(w.wk, dir.wk)), DMul(p.d, x, Move(w.wv, dir.wv));
    InputParts(p.n, p.d, p.e, p.x, w.wq, dir.wq);
    InputParts(p.n, p.d, p.e, p.x, w.wk, dir.wk);
    InputParts(p.n, p.d, p.h, p.x, w.wv, dir.wv);
    var s := DScore(p.e, p.scale, q, k);
    DScoreParts(p.n, p.e, p.scale, q, Query(p, w), Query(p, dir), k, Key(p, w), Key(p, dir));
    var st := ScoreTangent(p.e, p.scale, Query(p, w), Query(p, dir), Key(p, w), Key(p, dir));
    var a := DSoftmax(p.exp, s, shift);
    DSoftmaxParts(p.exp, p.n, s, Score(p.e, p.scale, Query(p, w), Key(p, w)), st, shift);
    var hidden := DMul(p.n, a, v);
    DMulParts(p.n, p.n, p.h, a, Weight(p, w), WeightTangent(p, w, dir), v, Value(p, w), Value(p, dir));
    var y := DMul(p.h, hidden, Move(w.wo, dir.wo));
    assert Parts(p.h, p.o, Move(w.wo, dir.wo), w.wo, dir.wo);
    DMulParts(p.n, p.h, p.o, hidden, Hidden(p, w), HiddenTangent(p, w, dir), Move(w.wo, dir.wo), w.wo, dir.wo);
    DMeanSquareParts(p, y, Output(p, w), OutputTangent(p, w, dir));
  }

  // ---- the backward pass is the adjoint of these derivatives ----

  lemma {:induction false} OutputStage(p: Problem, w: Params, dir: Params, dy: Entries)
    ensures Inner(p.n, p.o, dy, OutputTangent(p, w, dir))
         == Inner(p.n, p.h, Mul(p.o, dy, Flip(w.wo)), HiddenTangent(p, w, dir))
          + Inner(p.h, p.o, Mul(p.n, Flip(Hidden(p, w)), dy), dir.wo)
  {
    var th := HiddenTangent(p, w, dir);
    InnerAdd(p.n, p.o, dy, Mul(p.h, th, w.wo), Mul(p.h, Hidden(p, w), dir.wo));
    AdjointOfRightFactor(p.n, p.h, p.o, th, w.wo, dy);
    AdjointOfLeftFactor(p.n, p.h, p.o, Hidden(p, w), dir.wo, dy);
  }

  lemma {:induction false} HiddenStage(p: Problem, w: Params, dir: Params, dh: Entries)
    ensures Inner(p.n, p.h, dh, HiddenTangent(p, w, dir))
         == Inner(p.n, p.n, Mul(p.h, dh, Flip(Value(p, w))), WeightTangent(p, w, dir))
          + Inner(p.d, p.h, Mul(p.n, Flip(p.x), Mul(p.n, Flip(Weight(p, w)), dh)), dir.wv)
  {
    var ta, a := WeightTangent(p, w, dir), Weight(p, w);
    InnerAdd(p.n, p.h, dh, Mul(p.n, ta, Value(p, w)), Mul(p.n, a, Value(p, dir)));
    AdjointOfRightFactor(p.n, p.n, p.h, ta, Value(p, w), dh);
    AdjointOfLeftFactor(p.n, p.n, p.h, a, Value(p, dir), dh);
    AdjointOfLeftFactor(p.n, p.d, p.h, p.x, dir.wv, Mul(p.n, Flip(a), dh));
  }

  /** Scores q k^T * scale: moving q by tq moves <ds, scores> by <QueryGrad, tq>. */
  lemma QueryStage(n: nat, e: nat, scale: real, ds: Entries, k: Entries, tq: Entries)
    ensures Inner(n, n, ds, Scaled(scale, Mul(e, tq, Flip(k)))) == Inner(n, e, QueryGrad(n, scale, ds, k), tq)
  {
    var g, h := QueryGrad(n, scale, ds, k), Mul(n, ds, Flip(Flip(k)));
    InnerScale(n, n, ds, scale, Mul(e, tq, Flip(k)));
    AdjointOfRightFactor(n, e, n, tq, Flip(k), ds);
    var fk := Flip(Flip(k));
    forall r, t ensures g(r, t) == Scaled(scale, h)(r, t) {
      forall c ensures Times(Times(ds(r, c), k(c, t)), scale) == Times(scale, Times(ds(r, c), fk(c, t))) {
        Commute(Times(ds(r, c), k(c, t)), scale);
      }
      SumScale(n, scale, (c: int) => Times(ds(r, c), fk(c, t)), (c: int) => Times(Times(ds(r, c), k(c, t)), scale));
    }
    InnerExt(n, e, g, tq, Scaled(scale, h), tq);
    InnerComm(n, e, Scaled(scale, h), tq);
    InnerScale(n, e, tq, scale, h);
    InnerComm(n, e, tq, h);
  }

  /** The same for k: <ds, q tk^T * scale> == <KeyGrad, tk>. */
  lemma KeyStage(n: nat, e: nat, scale: real, ds: Entries, q: Entries, tk: Entries)
    ensures Inner(n, n, ds, Scaled(scale, Mul(e, q, Flip(tk)))) == Inner(n, e, KeyGrad(n, scale, ds, q), tk)
  {
    var s := Scaled(scale, Mul(e, q, Flip(tk)));
    var s' := Scaled(scale, Mul(e, tk, Flip(q)));
    InnerFlip(n, n, ds, s);
    var fs := Flip(s);
    forall i, j ensures fs(i, j) == s'(i, j) {
      FlipMul(e, q, Flip(tk), i, j);
      var ft, fq := Flip(Flip(tk)), Flip(q);
      SumExt(e, (l: int) => Times(ft(i, l), fq(l, j)), (l: int) => Times(tk(i, l), fq(l, j)));
    }
    InnerExt(n, n, Flip(ds), fs, Flip(ds), s');
    QueryStage(n, e, scale, Flip(ds), q, tk);
    var g, g', fd := KeyGrad(n, scale, ds, q), QueryGrad(n, scale, Flip(ds), q), Flip(ds);
    forall c, t ensures g'(c, t) == g(c, t) {
      SumExt(n, (r: int) => Times(Times(fd(c, r), q(r, t)), scale), (r: int) => Times(Times(ds(r, c), q(r, t)), scale));
    }
    InnerExt(n, e, g', tk, g, tk);
  }

  lemma ScoreStage(n: nat, e: nat, scale: real, ds: Entries, q: Entries, tq: Entries, k: Entries, tk: Entries)
    ensures Inner(n, n, ds, ScoreTangent(e, scale, q, tq, k, tk))
         == Inner(n, e, QueryGrad(n, scale, ds, k), tq) + Inner(n, e, KeyGrad(n, scale, ds, q), tk)
  {
    var a, b := Scaled(scale, Mul(e, tq, Flip(k))), Scaled(scale, Mul(e, q, Flip(tk)));
    var s, ab := ScoreTangent(e, scale, q, tq, k, tk), Plus(a, b);
    forall i, j ensures s(i, j) == ab(i, j) {
      var x, y := Prod(e, tq, Flip(k), i, j), Prod(e, q, Flip(tk), i, j);
      Distribute(scale, x, y);
      Commute(x + y, scale);
    }
    InnerExt(n, n, ds, s, ds, ab);
    InnerAdd(n, n, ds, a, b);
    QueryStage(n, e, scale, ds, k, tq);
    KeyStage(n, e, scale, ds, q, tk);
  }

  function Minus(a: Entries, b: Entries): Entries {
    (i: int, j: int) => a(i, j) - b(i, j)
  }

  /** Main result on scores: moving the queries by any t changes the scores by an amount whose inner product with ds is
      that of the accumulated query gradient with t, exactly; and likewise for the keys. */
  lemma {:induction false} ScoreChangeIsAdjoint(
      n: nat, e: nat, scale: real, ds: Entries, q: Entries, k: Entries, t: Entries)
    ensures Inner(n, n, ds, Minus(Score(e, scale, Plus(q, t), k), Score(e, scale, q, k)))
         == Inner(n, e, QueryGrad(n, scale, ds, k), t)
    ensures Inner(n, n, ds, Minus(Score(e, scale, q, Plus(k, t)), Score(e, scale, q, k)))
         == Inner(n, e, KeyGrad(n, scale, ds, q), t)
  {
    var byQuery, byKey := Minus(Score(e, scale, Plus(q, t), k), Score(e, scale, q, k)),
      Minus(Score(e, scale, q, Plus(k, t)), Score(e, scale, q, k));
    var a, b := Scaled(scale, Mul(e, t, Flip(k))), Scaled(scale, Mul(e, q, Flip(t)));
    forall i, j ensures byQuery(i, j) == a(i, j) && byKey(i, j) == b(i, j) {
      MulAddLeft(e, q, t, Flip(k), i, j);
      MovedScore(scale, Prod(e, q, Flip(k), i, j), Prod(e, t, Flip(k), i, j));
      FlippedSum(e, q, k, t, i, j);
      MovedScore(scale, Prod(e, q, Flip(k), i, j), Prod(e, q, Flip(t), i, j));
    }
    InnerExt(n, n, ds, byQuery, ds, a);
    InnerExt(n, n, ds, byKey, ds, b);
    QueryStage(n, e, scale, ds, k, t);
    KeyStage(n, e, scale, ds, q, t);
  }

  lemma MovedScore(scale: real, before: real, change: real)
    ensures Times(before + change, scale) - Times(before, scale) == Times(scale, change)
  {
    Distribute(scale, before, change);
    Commute(scale, change);
  }

  lemma FlippedSum(e: nat, q: Entries, k: Entries, t: Entries, i: int, j: int)
    ensures Prod(e, q, Flip(Plus(k, t)), i, j) == Prod(e, q, Flip(k), i, j) + Prod(e, q, Flip(t), i, j)
  {
    MulAddRight(e, q, Flip(k), Flip(t), i, j);
    var f, g := Flip(Plus(k, t)), Plus(Flip(k), Flip(t));
    SumExt(e, (l: int) => Times(q(i, l), f(l, j)), (l: int) => Times(q(i, l), g(l, j)));
  }

  lemma WeightStage(p: Problem, w: Params, dir: Params, da: Entries, ds: Entries)
    requires ds == SoftmaxGrad(Weight(p, w), da)
    ensures Inner(p.n, p.n, da, WeightTangent(p, w, dir))
         == Inner(p.d, p.e, Mul(p.n, Flip(p.x), QueryGrad(p.n, p.scale, ds, Key(p, w))), dir.wq)
          + Inner(p.d, p.e, Mul(p.n, Flip(p.x), KeyGrad(p.n, p.scale, ds, Query(p, w))), dir.wk)
  {
    var q, tq, k, tk := Query(p, w), Query(p, dir), Key(p, w), Key(p, dir);
    SoftmaxAdjoint(p.n, Weight(p, w), da, ScoreTangent(p.e, p.scale, q, tq, k, tk));
    ScoreStage(p.n, p.e, p.scale, ds, q, tq, k, tk);
    AdjointOfLeftFactor(p.n, p.d, p.e, p.x, dir.wq, QueryGrad(p.n, p.scale, ds, k));
    AdjointOfLeftFactor(p.n, p.d, p.e, p.x, dir.wk, KeyGrad(p.n, p.scale, ds, q));
  }

  /** The first-order change of the loss along dir that a gradient g predicts. */
  function Predicted(p: Problem, g: Params, dir: Params): real {
    Inner(p.d, p.e, g.wq, dir.wq) + Inner(p.d, p.e, g.wk, dir.wk)
    + Inner(p.d, p.h, g.wv, dir.wv) + Inner(p.h, p.o, g.wo, dir.wo)
  }

  /** Main result: the gradient formulas give the exact derivative of the loss in every direction. */
  lemma {:induction false} GradientIsExact(p: Problem, w: Params, dir: Params, shift: int -> Dual)
    requires p.n > 0 && p.o > 0 && IsExp(p.exp)
    ensures DLoss(p, w, dir, shift) == Dual(Loss(p, w), Predicted(p, Gradient(p, w), dir))
  {
    DLossParts(p, w, dir, shift);
    var dy := OutputGrad(p, Output(p, w));
    OutputStage(p, w, dir, dy);
    HiddenStage(p, w, dir, HiddenGrad(p, w));
    WeightStage(p, w, dir, WeightGrad(p, w), ScoreGrad(p, w));
  }
}
