/** The loss as a function of one real step along any direction of all four matrices: the gradient formulas give its
    derivative as a limit, the probe's finite differences come as close as one likes, and an Adam step of all four
    matrices lowers the loss if the learning rate is small. */
module Derivative {
  import opened Sums
  import opened Attention
  import opened Softmax
  import opened Adam
  import opened Expansion
  import Gradients
  import Descent

  /** Entries that change with a step. */
  type Path = real -> Entries

  /** How far each entry follows. */
  type Reaches = (int, int) -> Reach

  ghost predicate EntryFollows(a: Path, d: DualEntries, k: Reaches, i: int, j: int) {
    Follows((h: real) => a(h)(i, j), d(i, j), k(i, j))
  }

  ghost predicate PathFollows(m: nat, n: nat, a: Path, d: DualEntries, k: Reaches) {
    forall i, j :: 0 <= i < m && 0 <= j < n ==> EntryFollows(a, d, k, i, j)
  }

  // ---- sums and products ----

  type Terms = (real, int) -> real

  ghost predicate TermFollows(g: Terms, d: int -> Dual, k: int -> Reach, l: int) {
    Follows((h: real) => g(h, l), d(l), k(l))
  }

  function SumReaches(n: nat, k: int -> Reach): Reach {
    if n == 0 then EXACT else SumReach(SumReaches(n - 1, k), k(n - 1))
  }

  lemma {:induction false} SumOfFollows(n: nat, g: Terms, d: int -> Dual, k: int -> Reach, s: real -> real)
    requires forall l :: 0 <= l < n ==> TermFollows(g, d, k, l)
    requires forall h :: s(h) == Sum(n, (l: int) => g(h, l))
    ensures Follows(s, DSum(n, d), SumReaches(n, k))
  {
    if n == 0 {
      ConstantFollows(s, 0.0);
    } else {
      var front := (h: real) => Sum(n - 1, (l: int) => g(h, l));
      SumOfFollows(n - 1, g, d, k, front);
      assert TermFollows(g, d, k, n - 1);
      SumFollows(front, DSum(n - 1, d), SumReaches(n - 1, k), (h: real) => g(h, n - 1), d(n - 1), k(n - 1), s);
    }
  }

  function ProdReach(n: nat, da: DualEntries, ka: Reaches, db: DualEntries, kb: Reaches, i: int, j: int): Reach {
    SumReaches(n, (l: int) => ProductReach(da(i, l), ka(i, l), db(l, j), kb(l, j)))
  }

  function MulReach(n: nat, da: DualEntries, ka: Reaches, db: DualEntries, kb: Reaches): Reaches {
    (i: int, j: int) => ProdReach(n, da, ka, db, kb, i, j)
  }

  function FlipReach(k: Reaches): Reaches { (i: int, j: int) => k(j, i) }

  function Exact(): Reaches { (i: int, j: int) => EXACT }

  lemma ProdFollows(
      n: nat, a: Path, da: DualEntries, ka: Reaches, b: Path, db: DualEntries, kb: Reaches, i: int, j: int,
      s: real -> real)
    requires forall l :: 0 <= l < n ==> EntryFollows(a, da, ka, i, l) && EntryFollows(b, db, kb, l, j)
    requires forall h :: s(h) == Prod(n, a(h), b(h), i, j)
    ensures Follows(s, DProd(n, da, db, i, j), ProdReach(n, da, ka, db, kb, i, j))
  {
    var g: Terms := (h: real, l: int) => Times(a(h)(i, l), b(h)(l, j));
    var d: int -> Dual := (l: int) => DTimes(da(i, l), db(l, j));
    var k: int -> Reach := (l: int) => ProductReach(da(i, l), ka(i, l), db(l, j), kb(l, j));
    forall l | 0 <= l < n ensures TermFollows(g, d, k, l) {
      assert EntryFollows(a, da, ka, i, l) && EntryFollows(b, db, kb, l, j);
      ProductFollows((h: real) => a(h)(i, l), da(i, l), ka(i, l), (h: real) => b(h)(l, j), db(l, j), kb(l, j),
        (h: real) => g(h, l));
    }
    forall h ensures s(h) == Sum(n, (l: int) => g(h, l)) {
      var ah, bh := a(h), b(h);
      SumExt(n, (l: int) => Times(ah(i, l), bh(l, j)), (l: int) => g(h, l));
    }
    SumOfFollows(n, g, d, k, s);
  }

  lemma MulFollows(
      m: nat, k: nat, n: nat, a: Path, da: DualEntries, ka: Reaches, b: Path, db: DualEntries, kb: Reaches, c: Path)
    requires PathFollows(m, k, a, da, ka) && PathFollows(k, n, b, db, kb)
    requires forall h :: c(h) == Mul(k, a(h), b(h))
    ensures PathFollows(m, n, c, DMul(k, da, db), MulReach(k, da, ka, db, kb))
  {
    forall i, j | 0 <= i < m && 0 <= j < n ensures EntryFollows(c, DMul(k, da, db), MulReach(k, da, ka, db, kb), i, j) {
      ProdFollows(k, a, da, ka, b, db, kb, i, j, (h: real) => c(h)(i, j));
    }
  }

  lemma FlipFollows(m: nat, n: nat, a: Path, d: DualEntries, k: Reaches, b: Path)
    requires PathFollows(m, n, a, d, k) && forall h :: b(h) == Flip(a(h))
    ensures PathFollows(n, m, b, DFlip(d), FlipReach(k))
  {
    forall i, j | 0 <= i < n && 0 <= j < m ensures EntryFollows(b, DFlip(d), FlipReach(k), i, j) {
      assert EntryFollows(a, d, k, j, i);
      FollowsExt((h: real) => a(h)(j, i), (h: real) => b(h)(i, j), d(j, i), k(j, i));
    }
  }

  // ---- inputs and weights ----

  lemma FixedFollows(m: nat, n: nat, x: Entries, a: Path)
    requires forall h :: a(h) == x
    ensures PathFollows(m, n, a, Lift(x), Exact())
  {
    forall i, j | 0 <= i < m && 0 <= j < n ensures EntryFollows(a, Lift(x), Exact(), i, j) {
      ConstantFollows((h: real) => a(h)(i, j), x(i, j));
    }
  }

  lemma MovedFollows(m: nat, n: nat, w: Entries, dir: Entries, a: Path)
    requires forall h :: a(h) == Plus(w, Scaled(h, dir))
    ensures PathFollows(m, n, a, Move(w, dir), Exact())
  {
    forall i, j | 0 <= i < m && 0 <= j < n ensures EntryFollows(a, Move(w, dir), Exact(), i, j) {
      var f, d := (h: real) => a(h)(i, j), Move(w, dir)(i, j);
      forall h ensures f(h) == Line(d, h) {
        Commute(h, dir(i, j));
      }
      LineFollows(f, d);
    }
  }

  // ---- scores and softmax ----

  function ScoreReach(e: nat, scale: real, dq: DualEntries, kq: Reaches, dk: DualEntries, kk: Reaches): Reaches {
    (i: int, j: int) =>
      ProductReach(DProd(e, dq, DFlip(dk), i, j), ProdReach(e, dq, kq, DFlip(dk), FlipReach(kk), i, j), DConst(scale),
        EXACT)
  }

  lemma ScoreFollows(
      n: nat, e: nat, scale: real, q: Path, dq: DualEntries, kq: Reaches, k: Path, dk: DualEntries, kk: Reaches,
      s: Path)
    requires PathFollows(n, e, q, dq, kq) && PathFollows(n, e, k, dk, kk)
    requires forall h :: s(h) == Score(e, scale, q(h), k(h))
    ensures PathFollows(n, n, s, DScore(e, scale, dq, dk), ScoreReach(e, scale, dq, kq, dk, kk))
  {
    var fk: Path := (h: real) => Flip(k(h));
    FlipFollows(n, e, k, dk, kk, fk);
    var d, r := DScore(e, scale, dq, dk), ScoreReach(e, scale, dq, kq, dk, kk);
    var c := (h: real) => scale;
    ConstantFollows(c, scale);
    forall i, j | 0 <= i < n && 0 <= j < n ensures EntryFollows(s, d, r, i, j) {
      var inner := (h: real) => Prod(e, q(h), fk(h), i, j);
      ProdFollows(e, q, dq, kq, fk, DFlip(dk), FlipReach(kk), i, j, inner);
      ProductFollows(inner, DProd(e, dq, DFlip(dk), i, j), ProdReach(e, dq, kq, DFlip(dk), FlipReach(kk), i, j),
        c, DConst(scale), EXACT, (h: real) => s(h)(i, j));
    }
  }

  function NoShift(): int -> Dual { (i: int) => DConst(0.0) }

  lemma ExpsFollow(exp: real -> real, n: nat, s: Path, d: DualEntries, k: Reaches, i: int, j: int, u: real -> real)
    requires IsExp(exp) && NearOne(exp) && EntryFollows(s, d, k, i, j)
    requires forall h :: u(h) == exp(s(h)(i, j))
    ensures Follows(u, DShiftedExp(exp, d, NoShift(), i, j), ExpReach(exp, d(i, j), k(i, j)))
  {
    assert DSub(d(i, j), NoShift()(i)) == d(i, j);
    ExpFollows(exp, (h: real) => s(h)(i, j), d(i, j), k(i, j), u);
  }

  lemma {:induction false} DSumPositive(n: nat, d: int -> Dual)
    requires n > 0 && forall l :: 0 <= l < n ==> d(l).v > 0.0
    ensures DSum(n, d).v > 0.0
  {
    if n > 1 {
      DSumPositive(n - 1, d);
    } else {
      assert DSum(0, d) == DConst(0.0);
    }
  }

  function NormaliserReach(exp: real -> real, d: DualEntries, k: Reaches, i: nat): Reach {
    SumReaches(i + 1, (j: int) => ExpReach(exp, d(i, j), k(i, j)))
  }

  lemma NormaliserFollows(exp: real -> real, n: nat, s: Path, d: DualEntries, k: Reaches, i: nat, z: real -> real)
    requires IsExp(exp) && NearOne(exp) && i < n && PathFollows(n, n, s, d, k)
    requires forall h :: z(h) == Normaliser(exp, s(h), i)
    ensures Follows(z, DNormaliser(exp, d, NoShift(), i), NormaliserReach(exp, d, k, i))
    ensures DNormaliser(exp, d, NoShift(), i).v > 0.0
  {
    var g: Terms := (h: real, j: int) => exp(s(h)(i, j));
    var t: int -> Dual := (j: int) => DShiftedExp(exp, d, NoShift(), i, j);
    var r: int -> Reach := (j: int) => ExpReach(exp, d(i, j), k(i, j));
    forall j | 0 <= j < i + 1 ensures TermFollows(g, t, r, j) && t(j).v > 0.0 {
      assert EntryFollows(s, d, k, i, j);
      ExpsFollow(exp, n, s, d, k, i, j, (h: real) => g(h, j));
      var x := DSub(d(i, j), NoShift()(i)).v;
      assert ExpLaw(exp, x, x);
    }
    forall h ensures z(h) == Sum(i + 1, (j: int) => g(h, j)) {
      var u := Exps(exp, s(h));
      SumExt(i + 1, (j: int) => u(i, j), (j: int) => g(h, j));
    }
    SumOfFollows(i + 1, g, t, r, z);
    DSumPositive(i + 1, t);
  }

  function SoftmaxReach(exp: real -> real, d: DualEntries, k: Reaches): Reaches {
    (i: int, j: int) => if 0 <= j <= i then AllowedReach(exp, d, k, i, j) else EXACT
  }

  function AllowedReach(exp: real -> real, d: DualEntries, k: Reaches, i: nat, j: nat): Reach {
    QuotientReach(DShiftedExp(exp, d, NoShift(), i, j), ExpReach(exp, d(i, j), k(i, j)),
      DNormaliser(exp, d, NoShift(), i), NormaliserReach(exp, d, k, i))
  }

  lemma AllowedWeightFollows(
      exp: real -> real, n: nat, s: Path, d: DualEntries, k: Reaches, i: nat, j: nat, f: real -> real)
    requires IsExp(exp) && NearOne(exp) && PathFollows(n, n, s, d, k) && j <= i < n
    requires forall h :: f(h) == Over(exp(s(h)(i, j)), Normaliser(exp, s(h), i))
    ensures Follows(f, DOver(DShiftedExp(exp, d, NoShift(), i, j), DNormaliser(exp, d, NoShift(), i)),
      AllowedReach(exp, d, k, i, j))
  {
    var u, z := (h: real) => exp(s(h)(i, j)), (h: real) => Normaliser(exp, s(h), i);
    assert EntryFollows(s, d, k, i, j);
    ExpsFollow(exp, n, s, d, k, i, j, u);
    NormaliserFollows(exp, n, s, d, k, i, z);
    QuotientFollows(u, DShiftedExp(exp, d, NoShift(), i, j), ExpReach(exp, d(i, j), k(i, j)),
      z, DNormaliser(exp, d, NoShift(), i), NormaliserReach(exp, d, k, i), f);
  }

  lemma SoftmaxFollows(exp: real -> real, n: nat, s: Path, d: DualEntries, k: Reaches, a: Path)
    requires IsExp(exp) && NearOne(exp) && PathFollows(n, n, s, d, k)
    requires forall h :: a(h) == CausalSoftmax(exp, s(h))
    ensures PathFollows(n, n, a, DSoftmax(exp, d, NoShift()), SoftmaxReach(exp, d, k))
  {
    var ds, r := DSoftmax(exp, d, NoShift()), SoftmaxReach(exp, d, k);
    forall i, j | 0 <= i < n && 0 <= j < n ensures EntryFollows(a, ds, r, i, j) {
      WeightFollows(exp, n, s, d, k, i, j, (h: real) => a(h)(i, j));
    }
  }

  lemma WeightFollows(exp: real -> real, n: nat, s: Path, d: DualEntries, k: Reaches, i: nat, j: nat, f: real -> real)
    requires IsExp(exp) && NearOne(exp) && PathFollows(n, n, s, d, k) && i < n && j < n
    requires forall h :: f(h) == CausalSoftmax(exp, s(h))(i, j)
    ensures Follows(f, DSoftmax(exp, d, NoShift())(i, j), SoftmaxReach(exp, d, k)(i, j))
  {
    if j <= i {
      AllowedWeightFollows(exp, n, s, d, k, i, j, f);
    } else {
      ConstantFollows(f, 0.0);
    }
  }

  // ---- the loss ----

  function HalfSquareReach(d: Dual, k: Reach, t: real): Reach {
    var r, kr := DSub(d, DConst(t)), SumReach(k, EXACT);
    ProductReach(DTimes(DConst(0.5), r), ProductReach(DConst(0.5), EXACT, r, kr), r, kr)
  }

  lemma HalfSquareFollows(y: real -> real, d: Dual, k: Reach, t: real, s: real -> real)
    requires Follows(y, d, k) && forall h :: s(h) == Squared(y(h), t)
    ensures Follows(s, DTimes(DTimes(DConst(0.5), DSub(d, DConst(t))), DSub(d, DConst(t))), HalfSquareReach(d, k, t))
  {
    var half, target := (h: real) => 0.5, (h: real) => t;
    ConstantFollows(half, 0.5);
    ConstantFollows(target, t);
    var f, r, kr := (h: real) => y(h) - t, DSub(d, DConst(t)), SumReach(k, EXACT);
    DifferenceFollows(y, d, k, target, DConst(t), EXACT, f);
    var hf := (h: real) => Times(0.5, f(h));
    ProductFollows(half, DConst(0.5), EXACT, f, r, kr, hf);
    ProductFollows(hf, DTimes(DConst(0.5), r), ProductReach(DConst(0.5), EXACT, r, kr), f, r, kr, s);
  }

  lemma DualSquareAt(p: Problem, d: DualEntries, i: int, j: int)
    ensures DHalfSquare(d, p.target)(i, j)
      == DTimes(DTimes(DConst(0.5), DSub(d(i, j), DConst(p.target(i, j)))), DSub(d(i, j), DConst(p.target(i, j))))
  {
  }

  function Squared(y: real, t: real): real { Times(Times(0.5, y - t), y - t) }

  function Squares(p: Problem, y: Path, i: int): Terms {
    (h: real, j: int) => Squared(y(h)(i, j), p.target(i, j))
  }

  function SquareReaches(p: Problem, d: DualEntries, k: Reaches, i: int): int -> Reach {
    (j: int) => HalfSquareReach(d(i, j), k(i, j), p.target(i, j))
  }

  lemma SquareEntryFollows(p: Problem, y: Path, d: DualEntries, k: Reaches, i: int, j: int)
    requires EntryFollows(y, d, k, i, j)
    ensures TermFollows(Squares(p, y, i), (c: int) => DHalfSquare(d, p.target)(i, c), SquareReaches(p, d, k, i), j)
  {
    var g := Squares(p, y, i);
    HalfSquareFollows((h: real) => y(h)(i, j), d(i, j), k(i, j), p.target(i, j), (h: real) => g(h, j));
    DualSquareAt(p, d, i, j);
  }

  function RowReach(p: Problem, d: DualEntries, k: Reaches, i: int): Reach {
    SumReaches(p.o, SquareReaches(p, d, k, i))
  }

  lemma RowSquaresFollow(p: Problem, y: Path, d: DualEntries, k: Reaches, i: int, s: real -> real)
    requires PathFollows(p.n, p.o, y, d, k) && 0 <= i < p.n
    requires forall h :: s(h) == RowSum(p.o, HalfSquare(y(h), p.target), i)
    ensures Follows(s, DRowSum(p.o, DHalfSquare(d, p.target), i), RowReach(p, d, k, i))
  {
    var g, t: int -> Dual, r := Squares(p, y, i), (j: int) => DHalfSquare(d, p.target)(i, j), SquareReaches(p, d, k, i);
    forall j | 0 <= j < p.o ensures TermFollows(g, t, r, j) {
      assert EntryFollows(y, d, k, i, j);
      SquareEntryFollows(p, y, d, k, i, j);
    }
    forall h ensures s(h) == Sum(p.o, (j: int) => g(h, j)) {
      RowOfSquares(p, y, i, h, g);
    }
    SumOfFollows(p.o, g, t, r, s);
    assert DRowSum(p.o, DHalfSquare(d, p.target), i) == DSum(p.o, t);
  }

  lemma RowOfSquares(p: Problem, y: Path, i: int, h: real, g: Terms)
    requires g == Squares(p, y, i)
    ensures RowSum(p.o, HalfSquare(y(h), p.target), i) == Sum(p.o, (j: int) => g(h, j))
  {
    var yh := y(h);
    var f := HalfSquare(yh, p.target);
    forall j ensures f(i, j) == g(h, j) {
      SquareAt(p, yh, i, j);
    }
    SumExt(p.o, (j: int) => f(i, j), (j: int) => g(h, j));
  }

  lemma SquareAt(p: Problem, y: Entries, i: int, j: int)
    ensures HalfSquare(y, p.target)(i, j) == Squared(y(i, j), p.target(i, j))
  {
  }

  function MeanSquareReach(p: Problem, d: DualEntries, k: Reaches): Reach {
    QuotientReach(
      DSum(p.n, (i: int) => DRowSum(p.o, DHalfSquare(d, p.target), i)),
        SumReaches(p.n, (i: int) => RowReach(p, d, k, i)),
      DConst(Count(p)), EXACT)
  }

  lemma MeanSquareFollows(p: Problem, y: Path, d: DualEntries, k: Reaches, s: real -> real)
    requires p.n > 0 && p.o > 0 && PathFollows(p.n, p.o, y, d, k) && forall h :: s(h) == MeanSquare(p, y(h))
    ensures Follows(s, DMeanSquare(p, d), MeanSquareReach(p, d, k))
  {
    var g: Terms := (h: real, i: int) => RowSum(p.o, HalfSquare(y(h), p.target), i);
    var dh := DHalfSquare(d, p.target);
    var t: int -> Dual, r: int -> Reach := (i: int) => DRowSum(p.o, dh, i), (i: int) => RowReach(p, d, k, i);
    forall i | 0 <= i < p.n ensures TermFollows(g, t, r, i) {
      RowSquaresFollow(p, y, d, k, i, (h: real) => g(h, i));
    }
    var total, count := (h: real) => Sum(p.n, (i: int) => g(h, i)), (h: real) => Count(p);
    SumOfFollows(p.n, g, t, r, total);
    ConstantFollows(count, Count(p));
    Gradients.CountPositive(p);
    forall h ensures s(h) == Over(total(h), count(h)) {
      var yh := y(h);
      SumExt(p.n, (i: int) => RowSum(p.o, HalfSquare(yh, p.target), i), (i: int) => g(h, i));
    }
    QuotientFollows(total, DSum(p.n, t), SumReaches(p.n, r), count, DConst(Count(p)), EXACT, s);
  }

  /** All four matrices moved along a direction. */
  function Moved(w: Params, dir: Params, h: real): Params {
    Params(Plus(w.wq, Scaled(h, dir.wq)), Plus(w.wk, Scaled(h, dir.wk)), Plus(w.wv, Scaled(h, dir.wv)),
      Plus(w.wo, Scaled(h, dir.wo)))
  }

  function ProjectionReach(p: Problem, w: Entries, dir: Entries): Reaches {
    MulReach(p.d, Lift(p.x), Exact(), Move(w, dir), Exact())
  }

  lemma ProjectionFollows(p: Problem, n: nat, w: Entries, dir: Entries, a: Path)
    requires forall h :: a(h) == Mul(p.d, p.x, Plus(w, Scaled(h, dir)))
    ensures PathFollows(p.n, n, a, DMul(p.d, Lift(p.x), Move(w, dir)), ProjectionReach(p, w, dir))
  {
    var x: Path, m: Path := (h: real) => p.x, (h: real) => Plus(w, Scaled(h, dir));
    FixedFollows(p.n, p.d, p.x, x);
    MovedFollows(p.d, n, w, dir, m);
    MulFollows(p.n, p.d, n, x, Lift(p.x), Exact(), m, Move(w, dir), Exact(), a);
  }

  /** How far the loss follows its line along a direction, computed from the inputs, the weights and the direction. */
  function LossReach(p: Problem, w: Params, dir: Params): Reach {
    var x := Lift(p.x);
    var dq, dk, dv := DMul(p.d, x, Move(w.wq, dir.wq)), DMul(p.d, x, Move(w.wk, dir.wk)),
      DMul(p.d, x, Move(w.wv, dir.wv));
    var sc := DScore(p.e, p.scale, dq, dk);
    var rs := ScoreReach(p.e, p.scale, dq, ProjectionReach(p, w.wq, dir.wq), dk, ProjectionReach(p, w.wk, dir.wk));
    var a, ra := DSoftmax(p.exp, sc, NoShift()), SoftmaxReach(p.exp, sc, rs);
    var hidden, rh := DMul(p.n, a, dv), MulReach(p.n, a, ra, dv, ProjectionReach(p, w.wv, dir.wv));
    var wo := Move(w.wo, dir.wo);
    MeanSquareReach(p, DMul(p.h, hidden, wo), MulReach(p.h, hidden, rh, wo, Exact()))
  }

  lemma LossFollows(p: Problem, w: Params, dir: Params, s: real -> real)
    requires p.n > 0 && p.o > 0 && IsExp(p.exp) && NearOne(p.exp)
    requires forall h :: s(h) == Loss(p, Moved(w, dir, h))
    ensures Follows(s, DLoss(p, w, dir, NoShift()), LossReach(p, w, dir))
  {
    var x := Lift(p.x);
    var q: Path, dq := (h: real) => Query(p, Moved(w, dir, h)), DMul(p.d, x, Move(w.wq, dir.wq));
    var k: Path, dk := (h: real) => Key(p, Moved(w, dir, h)), DMul(p.d, x, Move(w.wk, dir.wk));
    var v: Path, dv := (h: real) => Value(p, Moved(w, dir, h)), DMul(p.d, x, Move(w.wv, dir.wv));
    var rq, rk, rv := ProjectionReach(p, w.wq, dir.wq), ProjectionReach(p, w.wk, dir.wk),
      ProjectionReach(p, w.wv, dir.wv);
    ProjectionFollows(p, p.e, w.wq, dir.wq, q);
    ProjectionFollows(p, p.e, w.wk, dir.wk, k);
    ProjectionFollows(p, p.h, w.wv, dir.wv, v);
    var sc: Path, a: Path := (h: real) => Score(p.e, p.scale, q(h), k(h)), (h: real) => Weight(p, Moved(w, dir, h));
    ScoreFollows(p.n, p.e, p.scale, q, dq, rq, k, dk, rk, sc);
    var ds, rs := DScore(p.e, p.scale, dq, dk), ScoreReach(p.e, p.scale, dq, rq, dk, rk);
    SoftmaxFollows(p.exp, p.n, sc, ds, rs, a);
    var da, ra := DSoftmax(p.exp, ds, NoShift()), SoftmaxReach(p.exp, ds, rs);
    var hidden: Path := (h: real) => Hidden(p, Moved(w, dir, h));
    MulFollows(p.n, p.n, p.h, a, da, ra, v, dv, rv, hidden);
    var dh, rh := DMul(p.n, da, dv), MulReach(p.n, da, ra, dv, rv);
    var wo: Path, y: Path := (h: real) => Plus(w.wo, Scaled(h, dir.wo)), (h: real) => Output(p, Moved(w, dir, h));
    MovedFollows(p.h, p.o, w.wo, dir.wo, wo);
    MulFollows(p.n, p.h, p.o, hidden, dh, rh, wo, Move(w.wo, dir.wo), Exact(), y);
    MeanSquareFollows(p, y, DMul(p.h, dh, Move(w.wo, dir.wo)), MulReach(p.h, dh, rh, Move(w.wo, dir.wo), Exact()), s);
  }

  lemma {:induction false} LossFollowsGradient(p: Problem, w: Params, dir: Params, s: real -> real)
    requires p.n > 0 && p.o > 0 && IsExp(p.exp) && NearOne(p.exp)
    requires forall h :: s(h) == Loss(p, Moved(w, dir, h))
    ensures Follows(s, Dual(Loss(p, w), Gradients.Predicted(p, Gradient(p, w), dir)), LossReach(p, w, dir))
  {
    LossFollows(p, w, dir, s);
    Gradients.GradientIsExact(p, w, dir, NoShift());
  }

  lemma FollowsLine(f: real -> real, start: real, slope: real, k: Reach)
    requires Follows(f, Dual(start, slope), k)
    ensures k.radius > 0.0
    ensures forall h :: -k.radius <= h <= k.radius ==>
      Abs(f(h) - (start + Times(slope, h))) <= Times(k.bound, Times(h, h))
  {
    forall h | -k.radius <= h <= k.radius ensures Abs(f(h) - (start + Times(slope, h))) <= Times(k.bound, Times(h, h)) {
      assert Close(f, Dual(start, slope), k.bound, h);
    }
  }

  /** Main result: along every direction of the four matrices at once, the loss stays within a computed constant times
      the square of the step of the line with the slope that the gradient formulas predict, on a computed radius. */
  lemma GradientIsDerivative(p: Problem, w: Params, dir: Params, s: real -> real, slope: real, k: Reach)
    requires p.n > 0 && p.o > 0 && IsExp(p.exp) && NearOne(p.exp)
    requires forall h :: s(h) == Loss(p, Moved(w, dir, h))
    requires slope == Gradients.Predicted(p, Gradient(p, w), dir) && k == LossReach(p, w, dir)
    ensures k.radius > 0.0
    ensures forall h :: -k.radius <= h <= k.radius ==>
      Abs(s(h) - (Loss(p, w) + Times(slope, h))) <= Times(k.bound, Times(h, h))
  {
    LossFollowsGradient(p, w, dir, s);
    FollowsLine(s, Loss(p, w), slope, k);
  }

  // ---- limits ----

  ghost predicate SlopeNear(f: real -> real, d: Dual, e: real, h: real) {
    Abs(Over(f(h) - d.v, h) - d.t) <= e
  }

  ghost predicate CentralNear(f: real -> real, d: Dual, e: real, h: real) {
    Abs(Over(f(h) - f(-h), 2.0 * h) - d.t) <= e
  }

  lemma DifferenceQuotient(f: real -> real, d: Dual, c: real, h: real)
    requires h != 0.0 && Close(f, d, c, h)
    ensures SlopeNear(f, d, Times(c, Abs(h)), h)
  {
    var e := f(h) - Line(d, h);
    QuotientOfStep(f(h) - d.v, d.t, e, c, h);
  }

  lemma QuotientOfStep(rise: real, t: real, e: real, c: real, h: real)
    requires h != 0.0 && rise == Times(t, h) + e && Abs(e) <= Times(c, Times(h, h))
    ensures Abs(Over(rise, h) - t) <= Times(c, Abs(h))
  {
    var a, x := Abs(h), Over(e, h);
    OverTimes(e, h);
    Distribute(h, t, x);
    OverUnique(rise, h, t + x);
    AbsOfTimes(x, h);
    Reassociate(c, a, a);
    SquareOfAbs(h);
    Commute(c, Times(a, a));
    LessAfterCancelling(Abs(x), Times(c, a), a);
  }

  lemma LessAfterCancelling(x: real, y: real, a: real)
    requires a > 0.0 && Times(x, a) <= Times(y, a)
    ensures x <= y
  {
    if x > y {
      StrictMonotone(y, x, a);
    }
  }

  lemma CentralQuotient(f: real -> real, d: Dual, c: real, h: real)
    requires h != 0.0 && Close(f, d, c, h) && Close(f, d, c, -h)
    ensures CentralNear(f, d, Times(c, Abs(h)), h)
  {
    var e1, e2 := f(h) - Line(d, h), f(-h) - Line(d, -h);
    Negate(d.t, h);
    Negate(h, h);
    AbsOfSum(e1, -e2);
    var q := Times(c, Times(h, h));
    HalfRise(f(h) - f(-h), d.t, e1 - e2, h);
    QuotientOfStep((f(h) - f(-h)) / 2.0, d.t, (e1 - e2) / 2.0, c, h);
  }

  lemma HalfRise(rise: real, t: real, e: real, h: real)
    requires h != 0.0
    ensures Over(rise, 2.0 * h) == Over(rise / 2.0, h)
  {
    var x := Over(rise / 2.0, h);
    OverTimes(rise / 2.0, h);
    assert Times(x, 2.0 * h) == rise by {
      Distribute(x, h, h);
    }
    OverUnique(rise, 2.0 * h, x);
  }

  /** The steps along a direction for which the loss is that close to its line. */
  function StepRadius(p: Problem, w: Params, dir: Params, tolerance: real): real {
    Radius(LossReach(p, w, dir).radius, LossReach(p, w, dir).bound, tolerance)
  }

  /** The usual limit: for every tolerance, small enough steps have difference quotients that close to the slope. */
  lemma FollowingIsALimit(f: real -> real, d: Dual, k: Reach, tolerance: real, h: real)
    requires Follows(f, d, k) && tolerance > 0.0
    requires 0.0 < Abs(h) <= Radius(k.radius, k.bound, tolerance)
    ensures SlopeNear(f, d, tolerance, h) && CentralNear(f, d, tolerance, h)
  {
    RadiusWorks(k.radius, k.bound, tolerance, h);
    assert Close(f, d, k.bound, h) && Close(f, d, k.bound, -h);
    DifferenceQuotient(f, d, k.bound, h);
    CentralQuotient(f, d, k.bound, h);
  }

  // ---- the finite-difference check, entry by entry ----

  datatype Name = Wq | Wk | Wv | Wo

  function Nothing(): Entries { (i: int, j: int) => 0.0 }

  /** One entry of one matrix moves. */
  function EntryDirection(name: Name, row: int, col: int): Params {
    var spike, none := Descent.Spike(row, col, 1.0), Nothing();
    match name
    case Wq => Params(spike, none, none, none)
    case Wk => Params(none, spike, none, none)
    case Wv => Params(none, none, spike, none)
    case Wo => Params(none, none, none, spike)
  }

  function Named(w: Params, name: Name): Entries {
    match name
    case Wq => w.wq
    case Wk => w.wk
    case Wv => w.wv
    case Wo => w.wo
  }

  function Rows(p: Problem, name: Name): nat { if name == Wo then p.h else p.d }

  function Columns(p: Problem, name: Name): nat {
    match name
    case Wq => p.e
    case Wk => p.e
    case Wv => p.h
    case Wo => p.o
  }

  lemma InnerWithNothing(m: nat, n: nat, a: Entries)
    ensures Inner(m, n, a, Nothing()) == 0.0
  {
    var z := Nothing();
    forall i ensures RowInner(n, a, z, i) == 0.0 {
      forall j ensures Times(a(i, j), z(i, j)) == 0.0 {
        Commute(a(i, j), 0.0);
        TimesZero(a(i, j));
      }
      SumZero(n, (j: int) => Times(a(i, j), z(i, j)));
    }
    SumZero(m, (i: int) => RowInner(n, a, z, i));
  }

  lemma PredictedEntry(p: Problem, g: Params, name: Name, row: int, col: int)
    requires 0 <= row < Rows(p, name) && 0 <= col < Columns(p, name)
    ensures Gradients.Predicted(p, g, EntryDirection(name, row, col)) == Named(g, name)(row, col)
  {
    Descent.InnerSpike(Rows(p, name), Columns(p, name), Named(g, name), row, col, 1.0);
    TimesOne(Named(g, name)(row, col));
    InnerWithNothing(p.d, p.e, g.wq);
    InnerWithNothing(p.d, p.e, g.wk);
    InnerWithNothing(p.d, p.h, g.wv);
    InnerWithNothing(p.h, p.o, g.wo);
  }

  /** Main result on the finite-difference check: for every entry of every matrix and every tolerance, the central
      difference of the loss is that close to the gradient entry for all steps up to a computed size. */
  lemma {:induction false} CentralDifferencesConverge(
      p: Problem, w: Params, name: Name, row: int, col: int, tolerance: real, s: real -> real, gradient: real, r: real)
    requires p.n > 0 && p.o > 0 && IsExp(p.exp) && NearOne(p.exp) && tolerance > 0.0
    requires 0 <= row < Rows(p, name) && 0 <= col < Columns(p, name)
    requires forall h :: s(h) == Loss(p, Moved(w, EntryDirection(name, row, col), h))
    requires gradient == Named(Gradient(p, w), name)(row, col)
    requires r == StepRadius(p, w, EntryDirection(name, row, col), tolerance)
    ensures r > 0.0
    ensures forall h :: 0.0 < Abs(h) <= r ==> Abs(Over(s(h) - s(-h), 2.0 * h) - gradient) <= tolerance
  {
    var dir := EntryDirection(name, row, col);
    var k, d := LossReach(p, w, dir), Dual(Loss(p, w), gradient);
    LossFollowsGradient(p, w, dir, s);
    PredictedEntry(p, Gradient(p, w), name, row, col);
    RadiusIsPositive(k.radius, k.bound, tolerance);
    forall h | 0.0 < Abs(h) <= r ensures Abs(Over(s(h) - s(-h), 2.0 * h) - gradient) <= tolerance {
      FollowingIsALimit(s, d, k, tolerance, h);
    }
  }

  // ---- an Adam step of all four matrices ----

  /** The step per unit of learning rate. */
  function AdamDirection(eps: real, g: Params): Params {
    Params(AdamMove(1.0, eps, g.wq), AdamMove(1.0, eps, g.wk), AdamMove(1.0, eps, g.wv), AdamMove(1.0, eps, g.wo))
  }

  /** What one step with the learning rate makes of the four matrices. */
  function AdamStepped(lr: real, eps: real, w: Params, g: Params): Params {
    Params(Plus(w.wq, AdamMove(lr, eps, g.wq)), Plus(w.wk, AdamMove(lr, eps, g.wk)),
      Plus(w.wv, AdamMove(lr, eps, g.wv)), Plus(w.wo, AdamMove(lr, eps, g.wo)))
  }

  lemma UnitStep(lr: real, eps: real, g: real)
    requires eps > 0.0
    ensures -Step(lr, eps, g) == Times(lr, -Step(1.0, eps, g))
  {
    var d := Abs(g) + eps;
    TimesOne(g);
    Commute(1.0, g);
    Commute(lr, g);
    MoveDivision(g, lr, d);
    Commute(Over(g, d), lr);
    Negate(lr, Over(g, d));
  }

  /** A function that follows a falling line is below its start after every small enough step. */
  lemma FallingGoesDown(f: real -> real, d: Dual, k: Reach, h: real)
    requires Follows(f, d, k) && d.t < 0.0 && 0.0 < h <= Radius(k.radius, k.bound, -d.t / 2.0)
    ensures f(h) < d.v
  {
    var c, bound := k.bound, -d.t / 2.0;
    RadiusWorks(k.radius, c, bound, h);
    assert Close(f, d, c, h);
    Reassociate(c, h, h);
    Monotone(Times(c, h), bound, h);
    PositiveTimes(-d.t, h);
    Negate(d.t, h);
    HalfTimes(-d.t, h);
  }

  lemma HalfTimes(a: real, h: real)
    ensures Times(a / 2.0, h) == Times(a, h) / 2.0
  {
  }

  // ---- the loss reads the matrices only through their entries ----

  ghost predicate SameEntries(p: Problem, w: Params, w': Params) {
    Agree(p.d, p.e, w.wq, w'.wq) && Agree(p.d, p.e, w.wk, w'.wk) && Agree(p.d, p.h, w.wv, w'.wv)
      && Agree(p.h, p.o, w.wo, w'.wo)
  }

  lemma ScoreAgrees(n: nat, e: nat, scale: real, q: Entries, q': Entries, k: Entries, k': Entries)
    requires Agree(n, e, q, q') && Agree(n, e, k, k')
    ensures Agree(n, n, Score(e, scale, q, k), Score(e, scale, q', k'))
  {
    var fk, fk' := Flip(k), Flip(k');
    forall i, j | 0 <= i < n && 0 <= j < n ensures Score(e, scale, q, k)(i, j) == Score(e, scale, q', k')(i, j) {
      SumExt(e, (l: int) => Times(q(i, l), fk(l, j)), (l: int) => Times(q'(i, l), fk'(l, j)));
    }
  }

  lemma SoftmaxAgrees(exp: real -> real, n: nat, s: Entries, s': Entries)
    requires Agree(n, n, s, s')
    ensures Agree(n, n, CausalSoftmax(exp, s), CausalSoftmax(exp, s'))
  {
    var u, u' := Exps(exp, s), Exps(exp, s');
    forall i, j | 0 <= i < n && 0 <= j < n ensures CausalSoftmax(exp, s)(i, j) == CausalSoftmax(exp, s')(i, j) {
      SumExt(i + 1, (l: int) => u(i, l), (l: int) => u'(i, l));
      assert s(i, j) == s'(i, j);
    }
  }

  lemma MeanSquareAgrees(p: Problem, y: Entries, y': Entries)
    requires Agree(p.n, p.o, y, y')
    ensures MeanSquare(p, y) == MeanSquare(p, y')
  {
    var f, f' := HalfSquare(y, p.target), HalfSquare(y', p.target);
    forall i | 0 <= i < p.n ensures RowSum(p.o, f, i) == RowSum(p.o, f', i) {
      SumExt(p.o, (j: int) => f(i, j), (j: int) => f'(i, j));
    }
    SumExt(p.n, (i: int) => RowSum(p.o, f, i), (i: int) => RowSum(p.o, f', i));
  }

  lemma {:induction false} LossAgrees(p: Problem, w: Params, w': Params)
    requires SameEntries(p, w, w')
    ensures Loss(p, w) == Loss(p, w')
  {
    MulExt(p.n, p.d, p.e, p.x, w.wq, p.x, w'.wq);
    MulExt(p.n, p.d, p.e, p.x, w.wk, p.x, w'.wk);
    MulExt(p.n, p.d, p.h, p.x, w.wv, p.x, w'.wv);
    ScoreAgrees(p.n, p.e, p.scale, Query(p, w), Query(p, w'), Key(p, w), Key(p, w'));
    SoftmaxAgrees(p.exp, p.n, Score(p.e, p.scale, Query(p, w), Key(p, w)),
      Score(p.e, p.scale, Query(p, w'), Key(p, w')));
    MulExt(p.n, p.n, p.h, Weight(p, w), Value(p, w), Weight(p, w'), Value(p, w'));
    MulExt(p.n, p.h, p.o, Hidden(p, w), w.wo, Hidden(p, w'), w'.wo);
    MeanSquareAgrees(p, Output(p, w), Output(p, w'));
  }

  // ---- the step goes down ----

  /** Some entry of the gradient is not zero. */
  ghost predicate HasSlope(p: Problem, g: Params) {
    exists name, row, col :: SlopeAt(p, g, name, row, col)
  }

  ghost predicate SlopeAt(p: Problem, g: Params, name: Name, row: int, col: int) {
    0 <= row < Rows(p, name) && 0 <= col < Columns(p, name) && Named(g, name)(row, col) != 0.0
  }

  lemma PredictedFall(p: Problem, g: Params, eps: real)
    requires eps > 0.0
    ensures HasSlope(p, g) ==> Gradients.Predicted(p, g, AdamDirection(eps, g)) < 0.0
  {
    forall name: Name ensures Inner(Rows(p, name), Columns(p, name), Named(g, name), AdamMove(1.0, eps, Named(g, name)))
      == -DropSum(Rows(p, name), Columns(p, name), eps, Named(g, name)) <= 0.0
    {
      MoveAlongGradient(Rows(p, name), Columns(p, name), 1.0, eps, Named(g, name));
      Negate(1.0, DropSum(Rows(p, name), Columns(p, name), eps, Named(g, name)));
      DropSumNonNegative(Rows(p, name), Columns(p, name), eps, Named(g, name));
    }
    assert Named(g, Wq) == g.wq && Named(g, Wk) == g.wk && Named(g, Wv) == g.wv && Named(g, Wo) == g.wo;
    if HasSlope(p, g) {
      var name, row, col :| SlopeAt(p, g, name, row, col);
      DropSumPositive(Rows(p, name), Columns(p, name), eps, Named(g, name), row, col);
    }
  }

  lemma {:induction false} SteppedIsMoved(p: Problem, w: Params, g: Params, lr: real, eps: real)
    requires eps > 0.0
    ensures SameEntries(p, AdamStepped(lr, eps, w, g), Moved(w, AdamDirection(eps, g), lr))
  {
    forall name: Name, i, j
      ensures AdamMove(lr, eps, Named(g, name))(i, j) == Scaled(lr, AdamMove(1.0, eps, Named(g, name)))(i, j)
    {
      UnitStep(lr, eps, Named(g, name)(i, j));
    }
    assert Named(g, Wq) == g.wq && Named(g, Wk) == g.wk && Named(g, Wv) == g.wv && Named(g, Wo) == g.wo;
  }

  lemma FollowedGoesDown(p: Problem, w: Params, w': Params, slope: real, k: Reach, s: real -> real, h: real)
    requires Follows(s, Dual(Loss(p, w), slope), k) && s(h) == Loss(p, w')
    requires slope < 0.0 && 0.0 < h <= Radius(k.radius, k.bound, -slope / 2.0)
    ensures Loss(p, w') < Loss(p, w)
  {
    FallingGoesDown(s, Dual(Loss(p, w), slope), k, h);
  }

  /** Every positive step up to r along the direction lowers the loss, and there are such steps. */
  ghost predicate GoesDown(p: Problem, w: Params, dir: Params, r: real) {
    r > 0.0 && forall h :: 0.0 < h <= r ==> LowerAt(p, w, dir, h)
  }

  ghost predicate LowerAt(p: Problem, w: Params, dir: Params, h: real) {
    Loss(p, Moved(w, dir, h)) < Loss(p, w)
  }

  /** Every direction with a negative slope goes down, for steps up to a computed size: half the slope is enough to
      spare. */
  lemma {:induction false} DirectionGoesDown(p: Problem, w: Params, dir: Params, slope: real, r: real)
    requires p.n > 0 && p.o > 0 && IsExp(p.exp) && NearOne(p.exp)
    requires slope == Gradients.Predicted(p, Gradient(p, w), dir) < 0.0 && r == StepRadius(p, w, dir, -slope / 2.0)
    ensures GoesDown(p, w, dir, r)
  {
    var s := (h: real) => Loss(p, Moved(w, dir, h));
    var k := LossReach(p, w, dir);
    LossFollowsGradient(p, w, dir, s);
    RadiusIsPositive(k.radius, k.bound, -slope / 2.0);
    forall h | 0.0 < h <= r ensures LowerAt(p, w, dir, h) {
      FollowedGoesDown(p, w, Moved(w, dir, h), slope, k, s, h);
    }
  }

  function AdamSlope(p: Problem, w: Params, eps: real): real {
    Gradients.Predicted(p, Gradient(p, w), AdamDirection(eps, Gradient(p, w)))
  }

  /** The learning rates for which the step is proved to go down. */
  function AdamRadius(p: Problem, w: Params, eps: real): real {
    StepRadius(p, w, AdamDirection(eps, Gradient(p, w)), -AdamSlope(p, w, eps) / 2.0)
  }

  lemma UpdatedIsMoved(p: Problem, w: Params, g: Params, lr: real, eps: real, updated: Params)
    requires eps > 0.0 && SameEntries(p, updated, AdamStepped(lr, eps, w, g))
    ensures Loss(p, updated) == Loss(p, Moved(w, AdamDirection(eps, g), lr))
  {
    SteppedIsMoved(p, w, g, lr, eps);
    LossAgrees(p, updated, AdamStepped(lr, eps, w, g));
    LossAgrees(p, AdamStepped(lr, eps, w, g), Moved(w, AdamDirection(eps, g), lr));
  }

  lemma AdamSlopeIsNegative(p: Problem, w: Params, eps: real)
    requires eps > 0.0 && HasSlope(p, Gradient(p, w))
    ensures AdamSlope(p, w, eps) < 0.0
  {
    PredictedFall(p, Gradient(p, w), eps);
  }

  lemma AdamLineGoesDown(p: Problem, w: Params, eps: real, dir: Params, slope: real, r: real)
    requires p.n > 0 && p.o > 0 && IsExp(p.exp) && NearOne(p.exp)
    requires slope == AdamSlope(p, w, eps) && slope < 0.0 && r == AdamRadius(p, w, eps)
    requires dir == AdamDirection(eps, Gradient(p, w))
    ensures GoesDown(p, w, dir, r)
  {
    DirectionGoesDown(p, w, dir, slope, r);
  }

  lemma AdamGoesDown(p: Problem, w: Params, eps: real)
    requires p.n > 0 && p.o > 0 && IsExp(p.exp) && NearOne(p.exp) && eps > 0.0 && HasSlope(p, Gradient(p, w))
    ensures GoesDown(p, w, AdamDirection(eps, Gradient(p, w)), AdamRadius(p, w, eps))
  {
    AdamSlopeIsNegative(p, w, eps);
    AdamLineGoesDown(p, w, eps, AdamDirection(eps, Gradient(p, w)), AdamSlope(p, w, eps), AdamRadius(p, w, eps));
  }

  /** Main result on the probe's step: unless the whole gradient is zero, an Adam step of all four matrices strictly
      lowers the loss if its learning rate is at most a positive number computed from the inputs, the weights and
      epsilon. */
  lemma {:induction false} AdamStepLowersLoss(p: Problem, w: Params, lr: real, eps: real, updated: Params)
    requires p.n > 0 && p.o > 0 && IsExp(p.exp) && NearOne(p.exp) && eps > 0.0 && HasSlope(p, Gradient(p, w))
    requires SameEntries(p, updated, AdamStepped(lr, eps, w, Gradient(p, w)))
    ensures AdamRadius(p, w, eps) > 0.0
    ensures 0.0 < lr <= AdamRadius(p, w, eps) ==> Loss(p, updated) < Loss(p, w)
  {
    AdamGoesDown(p, w, eps);
    UpdatedIsMoved(p, w, Gradient(p, w), lr, eps, updated);
    if 0.0 < lr <= AdamRadius(p, w, eps) {
      assert LowerAt(p, w, AdamDirection(eps, Gradient(p, w)), lr);
    }
  }
}
