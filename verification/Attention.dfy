/** One causal self-attention layer with a mean-squared loss, written as algebra on entry functions:
    the forward map, the gradient formulas, and the same forward map evaluated on dual numbers. */
module Attention {
  import opened Sums

  /** Everything that is not trained: shapes, data, score scale and the exponential. */
  datatype Problem = Problem(
    n: nat, d: nat, e: nat, h: nat, o: nat,
    x: Entries, target: Entries, scale: real, exp: real -> real)

  datatype Params = Params(wq: Entries, wk: Entries, wv: Entries, wo: Entries)

  /** The facts about the exponential that the arguments use. */
  ghost predicate IsExp(exp: real -> real) {
    forall a, b :: ExpLaw(exp, a, b)
  }

  ghost predicate ExpLaw(exp: real -> real, a: real, b: real) {
    exp(a) > 0.0 && Times(exp(a - b), exp(b)) == exp(a)
  }

  function Over(a: real, b: real): real {
    if b == 0.0 then 0.0 else a / b
  }

  // ---- forward ----

  function Query(p: Problem, w: Params): Entries { Mul(p.d, p.x, w.wq) }

  function Key(p: Problem, w: Params): Entries { Mul(p.d, p.x, w.wk) }

  function Value(p: Problem, w: Params): Entries { Mul(p.d, p.x, w.wv) }

  function Score(e: nat, scale: real, q: Entries, k: Entries): Entries {
    (i: int, j: int) => Times(Prod(e, q, Flip(k), i, j), scale)
  }

  function Exps(exp: real -> real, s: Entries): Entries {
    (i: int, j: int) => exp(s(i, j))
  }

  function Normaliser(exp: real -> real, s: Entries, i: int): real {
    if i < 0 then 0.0 else RowSum(i + 1, Exps(exp, s), i)
  }

  /** Row i is the softmax of the scores at columns 0..i; later columns are masked to zero. */
  function CausalSoftmax(exp: real -> real, s: Entries): Entries {
    (i: int, j: int) => if 0 <= j <= i then Over(exp(s(i, j)), Normaliser(exp, s, i)) else 0.0
  }

  function Weight(p: Problem, w: Params): Entries {
    CausalSoftmax(p.exp, Score(p.e, p.scale, Query(p, w), Key(p, w)))
  }

  function Hidden(p: Problem, w: Params): Entries { Mul(p.n, Weight(p, w), Value(p, w)) }

  function Output(p: Problem, w: Params): Entries { Mul(p.h, Hidden(p, w), w.wo) }

  function Count(p: Problem): real { (p.n * p.o) as real }

  function HalfSquare(y: Entries, t: Entries): Entries {
    (i: int, j: int) => Times(Times(0.5, y(i, j) - t(i, j)), y(i, j) - t(i, j))
  }

  function MeanSquare(p: Problem, y: Entries): real {
    Over(Sum(p.n, (i: int) => RowSum(p.o, HalfSquare(y, p.target), i)), Count(p))
  }

  function Loss(p: Problem, w: Params): real { MeanSquare(p, Output(p, w)) }

  // ---- gradients ----

  function OutputGrad(p: Problem, y: Entries): Entries {
    (i: int, j: int) => Over(y(i, j) - p.target(i, j), Count(p))
  }

  function SoftmaxGrad(a: Entries, da: Entries): Entries {
    (i: int, j: int) => if 0 <= j <= i then Times(a(i, j), da(i, j) - RowInner(i + 1, da, a, i)) else 0.0
  }

  function HiddenGrad(p: Problem, w: Params): Entries {
    Mul(p.o, OutputGrad(p, Output(p, w)), Flip(w.wo))
  }

  function WeightGrad(p: Problem, w: Params): Entries {
    Mul(p.h, HiddenGrad(p, w), Flip(Value(p, w)))
  }

  function ScoreGrad(p: Problem, w: Params): Entries {
    SoftmaxGrad(Weight(p, w), WeightGrad(p, w))
  }

  function QueryGrad(n: nat, scale: real, ds: Entries, k: Entries): Entries {
    (r: int, t: int) => Sum(n, (c: int) => Times(Times(ds(r, c), k(c, t)), scale))
  }

  function KeyGrad(n: nat, scale: real, ds: Entries, q: Entries): Entries {
    (c: int, t: int) => Sum(n, (r: int) => Times(Times(ds(r, c), q(r, t)), scale))
  }

  function ValueGrad(p: Problem, w: Params): Entries {
    Mul(p.n, Flip(Weight(p, w)), HiddenGrad(p, w))
  }

  function Gradient(p: Problem, w: Params): Params {
    var ds := ScoreGrad(p, w);
    Params(
      Mul(p.n, Flip(p.x), QueryGrad(p.n, p.scale, ds, Key(p, w))),
      Mul(p.n, Flip(p.x), KeyGrad(p.n, p.scale, ds, Query(p, w))),
      Mul(p.n, Flip(p.x), ValueGrad(p, w)),
      Mul(p.n, Flip(Hidden(p, w)), OutputGrad(p, Output(p, w))))
  }

  // ---- the forward map on dual numbers ----

  /** A value together with its derivative along one direction. */
  datatype Dual = Dual(v: real, t: real)

  type DualEntries = (int, int) -> Dual

  function DAdd(a: Dual, b: Dual): Dual { Dual(a.v + b.v, a.t + b.t) }

  function DSub(a: Dual, b: Dual): Dual { Dual(a.v - b.v, a.t - b.t) }

  function DTimes(a: Dual, b: Dual): Dual { Dual(Times(a.v, b.v), Times(a.t, b.v) + Times(a.v, b.t)) }

  /** Quotient rule. */
  function DOver(a: Dual, b: Dual): Dual {
    Dual(Over(a.v, b.v), Over(Times(a.t, b.v) - Times(a.v, b.t), Times(b.v, b.v)))
  }

  /** The derivative of the exponential is the exponential. */
  function DExp(exp: real -> real, a: Dual): Dual { Dual(exp(a.v), Times(exp(a.v), a.t)) }

  function DConst(a: real): Dual { Dual(a, 0.0) }

  function DSum(n: nat, f: int -> Dual): Dual {
    if n == 0 then DConst(0.0) else DAdd(DSum(n - 1, f), f(n - 1))
  }

  function DProd(k: nat, a: DualEntries, b: DualEntries, i: int, j: int): Dual {
    DSum(k, (l: int) => DTimes(a(i, l), b(l, j)))
  }

  function DMul(k: nat, a: DualEntries, b: DualEntries): DualEntries {
    (i: int, j: int) => DProd(k, a, b, i, j)
  }

  function DFlip(a: DualEntries): DualEntries {
    (i: int, j: int) => a(j, i)
  }

  function Lift(a: Entries): DualEntries {
    (i: int, j: int) => DConst(a(i, j))
  }

  /** A trained matrix moving in direction dir. */
  function Move(a: Entries, dir: Entries): DualEntries {
    (i: int, j: int) => Dual(a(i, j), dir(i, j))
  }

  function DScore(e: nat, scale: real, q: DualEntries, k: DualEntries): DualEntries {
    (i: int, j: int) => DTimes(DProd(e, q, DFlip(k), i, j), DConst(scale))
  }

  function DShiftedExp(exp: real -> real, s: DualEntries, shift: int -> Dual, i: int, j: int): Dual {
    DExp(exp, DSub(s(i, j), shift(i)))
  }

  function DNormaliser(exp: real -> real, s: DualEntries, shift: int -> Dual, i: int): Dual {
    if i < 0 then DConst(0.0) else DSum(i + 1, (j: int) => DShiftedExp(exp, s, shift, i, j))
  }

  /** The softmax as the program computes it, with some number subtracted from every score of a row. */
  function DSoftmax(exp: real -> real, s: DualEntries, shift: int -> Dual): DualEntries {
    (i: int, j: int) =>
      if 0 <= j <= i then DOver(DShiftedExp(exp, s, shift, i, j), DNormaliser(exp, s, shift, i)) else DConst(0.0)
  }

  function DRowSum(n: nat, f: DualEntries, i: int): Dual {
    DSum(n, (j: int) => f(i, j))
  }

  function DHalfSquare(y: DualEntries, t: Entries): DualEntries {
    (i: int, j: int) =>
      DTimes(DTimes(DConst(0.5), DSub(y(i, j), DConst(t(i, j)))), DSub(y(i, j), DConst(t(i, j))))
  }

  function DMeanSquare(p: Problem, y: DualEntries): Dual {
    DOver(DSum(p.n, (i: int) => DRowSum(p.o, DHalfSquare(y, p.target), i)), DConst(Count(p)))
  }

  /** The loss and its derivative when the four matrices move in the directions dir. */
  function DLoss(p: Problem, w: Params, dir: Params, shift: int -> Dual): Dual {
    var x := Lift(p.x);
    var q := DMul(p.d, x, Move(w.wq, dir.wq));
    var k := DMul(p.d, x, Move(w.wk, dir.wk));
    var v := DMul(p.d, x, Move(w.wv, dir.wv));
    var a := DSoftmax(p.exp, DScore(p.e, p.scale, q, k), shift);
    var y := DMul(p.h, DMul(p.n, a, v), Move(w.wo, dir.wo));
    DMeanSquare(p, y)
  }
}
