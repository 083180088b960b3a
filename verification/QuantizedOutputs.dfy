/** How far the outputs can move when all four matrices are quantised: a bound computed from the sizes of the inputs and
    the weights, and the probe's comparison of the two forward passes. */
module QuantizedOutputs {
  import opened Sums
  import opened Attention
  import opened Matrices
  import opened Softmax
  import opened Adam
  import opened Kernel
  import opened Quantize
  import Expansion

  // ---- the exponential grows ----

  lemma {:induction false} ExpAtLeastOne(exp: real -> real, u: real, n: nat)
    requires IsExp(exp) && Expansion.NearOne(exp) && 0.0 <= u <= n as real
    ensures exp(u) >= 1.0
    decreases n
  {
    if u <= 1.0 {
      assert Expansion.NearOneAt(exp, u);
      Monotone(u, 1.0, u);
      TimesOne(u);
    } else {
      var half := u / 2.0;
      ExpAtLeastOne(exp, half, n - 1);
      ExpShift(exp, u, half);
      assert u - half == half;
      Expansion.BothGrow(1.0, exp(half), 1.0, exp(half));
    }
  }

  lemma ExpMonotone(exp: real -> real, a: real, b: real)
    requires IsExp(exp) && Expansion.NearOne(exp) && a <= b
    ensures exp(a) <= exp(b)
  {
    ExpAtLeastOne(exp, b - a, (b - a).Floor + 1);
    ExpShift(exp, b, a);
    Monotone(1.0, exp(b - a), exp(a));
    TimesOne(exp(a));
  }

  /** Values that close have exponentials within that factor. */
  lemma ExpFactor(exp: real -> real, a: real, b: real, t: real)
    requires IsExp(exp) && Expansion.NearOne(exp) && b - a <= t
    ensures exp(b) <= Times(exp(t), exp(a))
  {
    ExpShift(exp, b, a);
    ExpMonotone(exp, b - a, t);
    Monotone(exp(b - a), exp(t), exp(a));
  }

  // ---- attention ----

  lemma NormaliserFactor(exp: real -> real, s: Entries, s': Entries, i: nat, t: real)
    requires IsExp(exp) && Expansion.NearOne(exp)
    requires forall l :: 0 <= l <= i ==> s'(i, l) - s(i, l) <= t
    ensures Normaliser(exp, s', i) <= Times(exp(t), Normaliser(exp, s, i))
  {
    var u, u', g: int -> real := Exps(exp, s), Exps(exp, s'), (l: int) => Times(exp(t), Exps(exp, s)(i, l));
    forall l | 0 <= l < i + 1 ensures u'(i, l) <= g(l) {
      ExpFactor(exp, s(i, l), s'(i, l), t);
    }
    SumLe(i + 1, (l: int) => u'(i, l), g);
    SumScale(i + 1, exp(t), (l: int) => u(i, l), g);
  }

  lemma QuotientFactor(u: real, u': real, z: real, z': real, r: real)
    requires z > 0.0 && z' > 0.0 && u > 0.0 && r > 0.0 && u' <= Times(r, u) && z <= Times(r, z')
    ensures Over(u', z') <= Times(Times(r, r), Over(u, z))
  {
    var a, a' := Over(u, z), Over(u', z');
    OverTimes(u, z);
    OverTimes(u', z');
    PositiveQuotient(u, z);
    // r u = r (a z) <= r (a (r z'))
    Monotone(z, Times(r, z'), a);
    Monotone(Times(z, a), Times(Times(r, z'), a), r);
    Regroup(r, a, z, z');
    if a' > Times(Times(r, r), a) {
      StrictMonotone(Times(Times(r, r), a), a', z');
    }
  }

  lemma Regroup(r: real, a: real, z: real, z': real)
    ensures Times(Times(z, a), r) == Times(r, Times(a, z))
    ensures Times(Times(Times(r, z'), a), r) == Times(Times(Times(r, r), a), z')
  {
    Commute(z, a);
    Commute(Times(a, z), r);
    Reassociate(Times(r, z'), a, r);
    Reassociate(r, z', Times(a, r));
    Commute(a, r);
    Commute(z', Times(r, a));
    Reassociate(r, Times(r, a), z');
    Reassociate(r, r, a);
  }

  lemma SoftmaxFactor(exp: real -> real, s: Entries, s': Entries, i: nat, j: nat, t: real)
    requires IsExp(exp) && Expansion.NearOne(exp) && j <= i
    requires forall l :: 0 <= l <= i ==> Abs(s'(i, l) - s(i, l)) <= t
    ensures CausalSoftmax(exp, s')(i, j) <= Times(Times(exp(t), exp(t)), CausalSoftmax(exp, s)(i, j))
  {
    NormaliserFactor(exp, s', s, i, t);
    NormaliserPositive(exp, s, i);
    NormaliserPositive(exp, s', i);
    ExpFactor(exp, s(i, j), s'(i, j), t);
    ExpShift(exp, s(i, j), t);
    ExpShift(exp, s'(i, j), t);
    QuotientFactor(exp(s(i, j)), exp(s'(i, j)), Normaliser(exp, s, i), Normaliser(exp, s', i), exp(t));
  }

  /** Two weights within a factor of each other differ by at most that share of the first. */
  lemma WeightDrift(a: real, a': real, factor: real)
    requires a > 0.0 && factor >= 1.0 && a' <= Times(factor, a) && a <= Times(factor, a')
    ensures Abs(a' - a) <= Times(factor - 1.0, a)
  {
    Distribute(a, factor, -1.0);
    Distribute(a', factor, -1.0);
    Negate(1.0, a);
    Negate(1.0, a');
    TimesOne(a);
    TimesOne(a');
    if a' < a {
      Monotone(a', a, factor - 1.0);
      Commute(a, factor - 1.0);
      Commute(a', factor - 1.0);
    }
  }

  // ---- sums of differences ----

  lemma {:induction false} SumDrift(n: nat, f: int -> real, f': int -> real, g: int -> real)
    requires forall l :: 0 <= l < n ==> Abs(f'(l) - f(l)) <= g(l)
    ensures Abs(Sum(n, f') - Sum(n, f)) <= Sum(n, g)
  {
    if n > 0 {
      SumDrift(n - 1, f, f', g);
    }
  }

  lemma {:induction false} SumConstant(n: nat, c: real)
    ensures Sum(n, (l: int) => c) == Times(n as real, c)
  {
    if n == 0 {
      TimesZero(c);
    } else {
      SumConstant(n - 1, c);
      Distribute(c, (n - 1) as real, 1.0);
      TimesOne(c);
      assert (n - 1) as real + 1.0 == n as real;
    }
  }

  lemma TermDrift(a: real, a': real, b: real, b': real, most: real, da: real, size: real, db: real)
    requires Abs(a') <= most && Abs(a' - a) <= da && Abs(b) <= size && Abs(b' - b) <= db
    ensures Abs(Times(a', b') - Times(a, b)) <= Times(most, db) + Times(da, size)
  {
    Commute(a', b' - b);
    Distribute(a', b' - b, b);
    Commute(a', b');
    Commute(a', b);
    Distribute(b, a' - a, a);
    Expansion.AbsOfTimes(b' - b, a');
    Expansion.AbsOfTimes(a' - a, b);
    Expansion.BothGrow(Abs(b' - b), db, Abs(a'), most);
    Expansion.BothGrow(Abs(a' - a), da, Abs(b), size);
    Commute(db, most);
    Expansion.AbsOfSum(Times(b' - b, a'), Times(a' - a, b));
  }

  /** An entry is at most that large, and the other one at most that far away. */
  ghost predicate Drifts(a: Entries, a': Entries, i: int, j: int, size: real, move: real) {
    Abs(a(i, j)) <= size && Abs(a'(i, j) - a(i, j)) <= move
  }

  /** A sum of products, when both factors move. */
  lemma ProductDrift(
      k: nat, a: Entries, a': Entries, b: Entries, b': Entries, i: int, j: int, most: real, da: real, size: real,
      db: real)
    requires forall l :: 0 <= l < k ==> Drifts(a', a, i, l, most, da) && Drifts(b, b', l, j, size, db)
    ensures Abs(Prod(k, a', b', i, j) - Prod(k, a, b, i, j)) <= Times(k as real, Times(most, db) + Times(da, size))
  {
    var c := Times(most, db) + Times(da, size);
    var f: int -> real, f': int -> real := (l: int) => Times(a(i, l), b(l, j)), (l: int) => Times(a'(i, l), b'(l, j));
    forall l | 0 <= l < k ensures Abs(f'(l) - f(l)) <= c {
      assert Drifts(a', a, i, l, most, da) && Drifts(b, b', l, j, size, db);
      TermDrift(a(i, l), a'(i, l), b(l, j), b'(l, j), most, da, size, db);
    }
    SumDrift(k, f, f', (l: int) => c);
    SumConstant(k, c);
  }

  // ---- the layer ----

  /** Bounds on the absolute row sums of the input, on the weights, and on how far each weight moves. */
  datatype Sizes = Sizes(input: real, weight: real, error: real)

  ghost predicate Moves(rows: nat, columns: nat, w: Entries, w': Entries, z: Sizes) {
    forall i, j :: 0 <= i < rows && 0 <= j < columns ==> Drifts(w, w', i, j, z.weight, z.error)
  }

  ghost predicate Sized(p: Problem, w: Params, w': Params, z: Sizes) {
    && z.weight >= 0.0 && z.error >= 0.0
    && (forall l :: 0 <= l < p.n ==> AbsRow(p.d, p.x, l) <= z.input)
    && Moves(p.d, p.e, w.wq, w'.wq, z) && Moves(p.d, p.e, w.wk, w'.wk, z)
    && Moves(p.d, p.h, w.wv, w'.wv, z) && Moves(p.h, p.o, w.wo, w'.wo, z)
  }

  /** The size of a query, key or value entry, and how far one moves. */
  function Size(z: Sizes): real { Times(z.weight, z.input) }

  function Move(z: Sizes): real { Times(z.error, z.input) }

  function ProductMove(p: Problem, z: Sizes): real {
    Times(p.e as real, Times(Size(z) + Move(z), Move(z)) + Times(Move(z), Size(z)))
  }

  function ScoreMove(p: Problem, z: Sizes): real { Times(ProductMove(p, z), Abs(p.scale)) }

  /** By what factor an attention weight can change. */
  function Factor(p: Problem, z: Sizes): real { Times(p.exp(ScoreMove(p, z)), p.exp(ScoreMove(p, z))) }

  function HiddenMove(p: Problem, z: Sizes): real { Move(z) + Times(Factor(p, z) - 1.0, Size(z)) }

  function OutputMove(p: Problem, z: Sizes): real {
    Times(p.h as real, Times(Size(z) + Move(z), z.error) + Times(HiddenMove(p, z), z.weight))
  }

  /** An entry of a projection, when its matrix moves. */
  lemma ProjectionMove(p: Problem, columns: nat, w: Entries, w': Entries, z: Sizes, l: int, c: int)
    requires z.weight >= 0.0 && z.error >= 0.0 && AbsRow(p.d, p.x, l) <= z.input
    requires Moves(p.d, columns, w, w', z) && 0 <= c < columns
    ensures Drifts(Mul(p.d, p.x, w), Mul(p.d, p.x, w'), l, c, Size(z), Move(z))
    ensures Drifts(Mul(p.d, p.x, w'), Mul(p.d, p.x, w), l, c, Size(z) + Move(z), Move(z))
  {
    var move: Entries := (i: int, j: int) => w'(i, j) - w(i, j);
    forall k | 0 <= k < p.d ensures Abs(w(k, c)) <= z.weight && Abs(move(k, c)) <= z.error {
      assert Drifts(w, w', k, c, z.weight, z.error);
    }
    CachedDrift(p, w, z.weight, z.input, l, c);
    CachedDrift(p, move, z.error, z.input, l, c);
    var whole := Plus(w, move);
    SumExt(p.d, (k: int) => Times(p.x(l, k), w'(k, c)), (k: int) => Times(p.x(l, k), whole(k, c)));
    MulAddRight(p.d, p.x, w, move, l, c);
  }

  lemma ProductMoves(p: Problem, w: Params, w': Params, z: Sizes, i: int, l: int)
    requires Sized(p, w, w', z) && 0 <= i < p.n && 0 <= l < p.n
    ensures Abs(Prod(p.e, Query(p, w'), Flip(Key(p, w')), i, l) - Prod(p.e, Query(p, w), Flip(Key(p, w)), i, l))
      <= ProductMove(p, z)
  {
    var q, q', k, k' := Query(p, w), Query(p, w'), Flip(Key(p, w)), Flip(Key(p, w'));
    var size, move, most := Size(z), Move(z), Size(z) + Move(z);
    forall t | 0 <= t < p.e ensures Drifts(q', q, i, t, most, move) && Drifts(k, k', t, l, size, move) {
      ProjectionMove(p, p.e, w.wq, w'.wq, z, i, t);
      ProjectionMove(p, p.e, w.wk, w'.wk, z, l, t);
    }
    ProductDrift(p.e, q, q', k, k', i, l, most, move, size, move);
  }

  lemma ScoreMoves(p: Problem, w: Params, w': Params, z: Sizes, i: int, l: int)
    requires Sized(p, w, w', z) && 0 <= i < p.n && 0 <= l < p.n
    ensures var s, s' := Score(p.e, p.scale, Query(p, w), Key(p, w)), Score(p.e, p.scale, Query(p, w'), Key(p, w'));
      Abs(s'(i, l) - s(i, l)) <= ScoreMove(p, z)
  {
    ProductMoves(p, w, w', z, i, l);
    ScaledMove(Prod(p.e, Query(p, w), Flip(Key(p, w)), i, l), Prod(p.e, Query(p, w'), Flip(Key(p, w')), i, l),
      p.scale, ProductMove(p, z));
  }

  lemma ScaledMove(a: real, a': real, scale: real, bound: real)
    requires Abs(a' - a) <= bound
    ensures Abs(Times(a', scale) - Times(a, scale)) <= Times(bound, Abs(scale))
  {
    Distribute(scale, a', -a);
    Negate(a, scale);
    Expansion.AbsOfTimes(a' - a, scale);
    Monotone(Abs(a' - a), bound, Abs(scale));
  }

  /** Two weights are positive, and differ by at most a share of the first. */
  ghost predicate ShareMoves(a: Entries, a': Entries, i: int, l: int, share: real) {
    a(i, l) > 0.0 && a'(i, l) > 0.0 && Abs(a'(i, l) - a(i, l)) <= Times(share, a(i, l))
  }

  lemma SoftmaxMoves(exp: real -> real, s: Entries, s': Entries, i: nat, l: nat, t: real)
    requires IsExp(exp) && Expansion.NearOne(exp) && l <= i
    requires forall k :: 0 <= k <= i ==> Abs(s'(i, k) - s(i, k)) <= t
    ensures ShareMoves(CausalSoftmax(exp, s), CausalSoftmax(exp, s'), i, l, Times(exp(t), exp(t)) - 1.0)
  {
    SoftmaxFactor(exp, s, s', i, l, t);
    SoftmaxFactor(exp, s', s, i, l, t);
    RowIsDistribution(exp, s, i);
    RowIsDistribution(exp, s', i);
    assert Abs(s'(i, i) - s(i, i)) <= t;
    ExpAtLeastOne(exp, t, t.Floor + 1);
    Expansion.BothGrow(1.0, exp(t), 1.0, exp(t));
    WeightDrift(CausalSoftmax(exp, s)(i, l), CausalSoftmax(exp, s')(i, l), Times(exp(t), exp(t)));
  }

  lemma {:induction false} AttentionMoves(p: Problem, w: Params, w': Params, z: Sizes, i: int, l: int)
    requires IsExp(p.exp) && Expansion.NearOne(p.exp) && Sized(p, w, w', z) && 0 <= l <= i < p.n
    ensures ShareMoves(Weight(p, w), Weight(p, w'), i, l, Factor(p, z) - 1.0)
  {
    var s, s' := Score(p.e, p.scale, Query(p, w), Key(p, w)), Score(p.e, p.scale, Query(p, w'), Key(p, w'));
    var t := ScoreMove(p, z);
    forall k | 0 <= k <= i ensures Abs(s'(i, k) - s(i, k)) <= t {
      ScoreMoves(p, w, w', z, i, k);
    }
    SoftmaxMoves(p.exp, s, s', i, l, t);
  }

  /** One row of hidden states: the values move by at most one bound, the weights by at most one share. */
  lemma RowMoves(
      m: nat, a: Entries, a': Entries, v: Entries, v': Entries, i: int, c: int, move: real, share: real, size: real)
    requires RowSum(m, a, i) == 1.0 && RowSum(m, a', i) == 1.0
    requires forall l :: 0 <= l < m ==> ShareMoves(a, a', i, l, share)
    requires forall l :: 0 <= l < m ==> Drifts(v, v', l, c, size, move)
    ensures Abs(Prod(m, a', v', i, c) - Prod(m, a, v, i, c)) <= move + Times(share, size)
  {
    var f: int -> real, f': int -> real := (l: int) => Times(a(i, l), v(l, c)), (l: int) => Times(a'(i, l), v'(l, c));
    var row: int -> real, row': int -> real := (l: int) => a(i, l), (l: int) => a'(i, l);
    var k := Times(share, size);
    var g1: int -> real, g2: int -> real := (l: int) => Times(move, a'(i, l)), (l: int) => Times(k, a(i, l));
    var g: int -> real := (l: int) => g1(l) + g2(l);
    forall l | 0 <= l < m ensures Abs(f'(l) - f(l)) <= g(l) {
      assert ShareMoves(a, a', i, l, share) && Drifts(v, v', l, c, size, move);
      TermDrift(a(i, l), a'(i, l), v(l, c), v'(l, c), a'(i, l), Times(share, a(i, l)), size, move);
      Commute(a'(i, l), move);
      Reassociate(share, a(i, l), size);
      Commute(a(i, l), size);
      Reassociate(share, size, a(i, l));
    }
    SumDrift(m, f, f', g);
    SumAdd(m, g1, g2, g);
    SumScale(m, move, row', g1);
    SumScale(m, k, row, g2);
    assert RowSum(m, a, i) == Sum(m, row) && RowSum(m, a', i) == Sum(m, row');
    TimesOne(move);
    TimesOne(k);
  }

  lemma ValuesMove(p: Problem, w: Params, w': Params, z: Sizes, l: int, c: int)
    requires Sized(p, w, w', z) && 0 <= l < p.n && 0 <= c < p.h
    ensures Drifts(Value(p, w), Value(p, w'), l, c, Size(z), Move(z))
    ensures Drifts(Value(p, w'), Value(p, w), l, c, Size(z) + Move(z), Move(z))
  {
    ProjectionMove(p, p.h, w.wv, w'.wv, z, l, c);
  }

  lemma HiddenIsSmall(p: Problem, w: Params, w': Params, z: Sizes, i: int, c: int)
    requires IsExp(p.exp) && Sized(p, w, w', z) && 0 <= i < p.n && 0 <= c < p.h
    ensures Abs(Hidden(p, w')(i, c)) <= Size(z) + Move(z)
  {
    var v', most := Value(p, w'), Size(z) + Move(z);
    forall l | 0 <= l <= i ensures -most <= v'(l, c) <= most {
      ValuesMove(p, w, w', z, l, c);
      assert Drifts(v', Value(p, w), l, c, most, Move(z));
    }
    HiddenInHull(p, w', v', -most, most, i, c);
  }

  lemma {:induction false} HiddenMoves(p: Problem, w: Params, w': Params, z: Sizes, i: int, c: int)
    requires IsExp(p.exp) && Expansion.NearOne(p.exp) && Sized(p, w, w', z) && 0 <= i < p.n && 0 <= c < p.h
    ensures Abs(Hidden(p, w')(i, c) - Hidden(p, w)(i, c)) <= HiddenMove(p, z)
  {
    var a, a', v, v', share := Weight(p, w), Weight(p, w'), Value(p, w), Value(p, w'), Factor(p, z) - 1.0;
    forall l | 0 <= l < i + 1 ensures ShareMoves(a, a', i, l, share) {
      AttentionMoves(p, w, w', z, i, l);
    }
    forall l | 0 <= l < i + 1 ensures Drifts(v, v', l, c, Size(z), Move(z)) {
      ValuesMove(p, w, w', z, l, c);
    }
    RowIsDistribution(p.exp, Score(p.e, p.scale, Query(p, w), Key(p, w)), i);
    RowIsDistribution(p.exp, Score(p.e, p.scale, Query(p, w'), Key(p, w')), i);
    MaskedSum(p.n, a, v, i, c);
    MaskedSum(p.n, a', v', i, c);
    RowMoves(i + 1, a, a', v, v', i, c, Move(z), share, Size(z));
  }

  lemma OutputDrifts(p: Problem, w: Params, w': Params, z: Sizes, i: int, j: int, c: int, most: real, move: real)
    requires IsExp(p.exp) && Expansion.NearOne(p.exp) && Sized(p, w, w', z)
    requires 0 <= i < p.n && 0 <= j < p.o && 0 <= c < p.h && most == Size(z) + Move(z) && move == HiddenMove(p, z)
    ensures Drifts(Hidden(p, w'), Hidden(p, w), i, c, most, move)
    ensures Drifts(w.wo, w'.wo, c, j, z.weight, z.error)
  {
    HiddenMoves(p, w, w', z, i, c);
    HiddenIsSmall(p, w, w', z, i, c);
  }

  lemma OutputEntry(p: Problem, w: Params, i: int, j: int)
    ensures Output(p, w)(i, j) == Prod(p.h, Hidden(p, w), w.wo, i, j)
  {
  }

  /** Main result on quantisation: whatever the four matrices move by, entry by entry, no output moves by more than the
      computed bound. */
  lemma {:induction false} OutputMoves(p: Problem, w: Params, w': Params, z: Sizes, i: int, j: int)
    requires IsExp(p.exp) && Expansion.NearOne(p.exp) && Sized(p, w, w', z) && 0 <= i < p.n && 0 <= j < p.o
    ensures Abs(Output(p, w')(i, j) - Output(p, w)(i, j)) <= OutputMove(p, z)
  {
    var most, move := Size(z) + Move(z), HiddenMove(p, z);
    forall c | 0 <= c < p.h
      ensures Drifts(Hidden(p, w'), Hidden(p, w), i, c, most, move) && Drifts(w.wo, w'.wo, c, j, z.weight, z.error)
    {
      OutputDrifts(p, w, w', z, i, j, c, most, move);
    }
    ProductDrift(p.h, Hidden(p, w), Hidden(p, w'), w.wo, w'.wo, i, j, most, move, z.weight, z.error);
    OutputEntry(p, w, i, j);
    OutputEntry(p, w', i, j);
  }

  /** The bound is sharp where it has to be: weights that do not move leave no room for the outputs. */
  lemma NothingMovesNothing(p: Problem, z: Sizes)
    requires IsExp(p.exp) && z.error == 0.0
    ensures OutputMove(p, z) == 0.0
  {
    ExpShift(p.exp, 0.0, 0.0);
    assert Move(z) == 0.0 && ProductMove(p, z) == 0.0 && ScoreMove(p, z) == 0.0;
    assert ExpLaw(p.exp, 0.0, 0.0);
    UnitFactor(p.exp(0.0));
    assert Factor(p, z) == 1.0 && HiddenMove(p, z) == 0.0;
  }

  lemma UnitFactor(e: real)
    requires e > 0.0 && Times(e, e) == e
    ensures e == 1.0
  {
    assert e * (e - 1.0) == 0.0;
  }

  // ---- the probe's comparison ----

  function QuantisedWeights(w: Weights): Weights {
    Weights(DequantizeMatrix(QuantizeMatrix(w.wq)), DequantizeMatrix(QuantizeMatrix(w.wk)),
      DequantizeMatrix(QuantizeMatrix(w.wv)), DequantizeMatrix(QuantizeMatrix(w.wo)))
  }

  /** Every entry is at most that large, and quantising it moves it by at most that error: by 1/8192 in range. */
  ghost predicate Fits(m: Matrix, z: Sizes) {
    forall i, j :: 0 <= i < |m| && 0 <= j < |m[i]| ==> FitsAt(m[i][j], z)
  }

  ghost predicate FitsAt(value: real, z: Sizes) {
    Abs(value) <= z.weight && Abs(DequantizeEntry(QuantizeEntry(value)) - value) <= z.error
  }

  lemma QuantisedMoves(m: Matrix, rows: nat, columns: nat, z: Sizes)
    requires IsMatrix(m, rows, columns) && Fits(m, z)
    ensures IsMatrix(DequantizeMatrix(QuantizeMatrix(m)), rows, columns)
    ensures Moves(rows, columns, EntriesOf(m), EntriesOf(DequantizeMatrix(QuantizeMatrix(m))), z)
  {
    var q := DequantizeMatrix(QuantizeMatrix(m));
    forall i, j | 0 <= i < rows && 0 <= j < columns
      ensures Drifts(EntriesOf(m), EntriesOf(q), i, j, z.weight, z.error)
    {
      assert FitsAt(m[i][j], z);
    }
  }

  lemma DeltasWithin(p: Problem, w: Params, w': Params, z: Sizes, y: Matrix, y': Matrix)
    requires IsExp(p.exp) && Expansion.NearOne(p.exp) && Sized(p, w, w', z)
    requires Holds(y, p.n, p.o, Output(p, w)) && Holds(y', p.n, p.o, Output(p, w'))
    ensures forall i, j :: 0 <= i < p.n && 0 <= j < p.o ==> Abs(y[i][j] - y'[i][j]) <= OutputMove(p, z)
  {
    var bound := OutputMove(p, z);
    forall i, j | 0 <= i < p.n && 0 <= j < p.o ensures Abs(y[i][j] - y'[i][j]) <= bound {
      OutputMoves(p, w, w', z, i, j);
      assert y[i][j] == Output(p, w)(i, j) && y'[i][j] == Output(p, w')(i, j);
    }
  }

  /** The probe's drift check: forward with the weights, forward with the quantised weights, and the greatest difference
      of the outputs. It is at most the computed bound. */
  method QuantisedForward(
      exp: real -> real, sqrt: real -> real, x: Matrix, target: Matrix, w: Weights, ghost z: Sizes)
    returns (delta: real)
    requires IsExp(exp) && Expansion.NearOne(exp) && WellShaped(x, target, w) && z.weight >= 0.0 && z.error >= 0.0
    requires Fits(w.wq, z) && Fits(w.wk, z) && Fits(w.wv, z) && Fits(w.wo, z)
    requires forall l :: 0 <= l < |x| ==> AbsRow(|x[0]|, EntriesOf(x), l) <= z.input
    ensures delta <= OutputMove(ProblemOf(exp, sqrt, x, target, w), z)
    ensures forall c, c' ::
      IsCacheOf(exp, sqrt, x, target, w, c) && IsCacheOf(exp, sqrt, x, target, QuantisedWeights(w), c') ==>
        delta == MaxDelta(c.y, c'.y, |x|, |w.wo[0]|)
  {
    ghost var p := ProblemOf(exp, sqrt, x, target, w);
    var quantised := QuantisedWeights(w);
    QuantisedMoves(w.wq, p.d, p.e, z);
    QuantisedMoves(w.wk, p.d, p.e, z);
    QuantisedMoves(w.wv, p.d, p.h, z);
    QuantisedMoves(w.wo, p.h, p.o, z);
    var c := ForwardFullSequence(exp, sqrt, x, target, w);
    var c' := ForwardFullSequence(exp, sqrt, x, target, quantised);
    assert Sized(p, ParamsOf(w), ParamsOf(quantised), z);
    DeltasWithin(p, ParamsOf(w), ParamsOf(quantised), z, c.y, c'.y);
    delta := MaxDelta(c.y, c'.y, |x|, |w.wo[0]|);
    forall d | IsCacheOf(exp, sqrt, x, target, w, d) ensures d.y == c.y {
      HoldsOnce(d.y, c.y, p.n, p.o, Output(p, ParamsOf(w)));
    }
    forall d | IsCacheOf(exp, sqrt, x, target, quantised, d) ensures d.y == c'.y {
      HoldsOnce(d.y, c'.y, p.n, p.o, Output(p, ParamsOf(quantised)));
    }
  }
}
