/** Finite sums of reals over index functions, and the two matrix products written with them.
    A matrix is seen here as an entry function; shapes are the bounds of the sums. */
module Sums {

  type Entries = (int, int) -> real

  /** Multiplication by name: a product whose factors are known to be equal to others is then recognised as the
      same product. */
  function Times(a: real, b: real): real {
    a * b
  }

  function Sum(n: nat, f: int -> real): real {
    if n == 0 then 0.0 else Sum(n - 1, f) + f(n - 1)
  }

  /** Entry (i, j) of the product of a and b, with inner dimension k. */
  function Prod(k: nat, a: Entries, b: Entries, i: int, j: int): real {
    Sum(k, (l: int) => Times(a(i, l), b(l, j)))
  }

  function Mul(k: nat, a: Entries, b: Entries): Entries {
    (i: int, j: int) => Prod(k, a, b, i, j)
  }

  function Flip(a: Entries): Entries {
    (i: int, j: int) => a(j, i)
  }

  function Plus(a: Entries, b: Entries): Entries {
    (i: int, j: int) => a(i, j) + b(i, j)
  }

  function Scaled(k: real, a: Entries): Entries {
    (i: int, j: int) => Times(k, a(i, j))
  }

  function RowSum(n: nat, f: Entries, i: int): real {
    Sum(n, (j: int) => f(i, j))
  }

  function RowInner(n: nat, a: Entries, b: Entries, i: int): real {
    Sum(n, (j: int) => Times(a(i, j), b(i, j)))
  }

  /** Frobenius inner product of two m-by-n matrices. */
  function Inner(m: nat, n: nat, a: Entries, b: Entries): real {
    Sum(m, (i: int) => RowInner(n, a, b, i))
  }

  ghost predicate Agree(m: int, n: int, a: Entries, b: Entries) {
    forall i, j :: 0 <= i < m && 0 <= j < n ==> a(i, j) == b(i, j)
  }

  // ---- products of two or three numbers ----

  lemma Distribute(x: real, y: real, z: real)
    ensures Times(x, y + z) == Times(x, y) + Times(x, z)
    ensures Times(y + z, x) == Times(y, x) + Times(z, x)
  {
  }

  lemma Commute(x: real, y: real)
    ensures Times(x, y) == Times(y, x)
  {
  }

  lemma TimesZero(a: real)
    ensures Times(0.0, a) == 0.0
  {
  }

  lemma TimesOne(a: real)
    ensures Times(a, 1.0) == a
  {
  }

  lemma Negate(x: real, y: real)
    ensures Times(x, -y) == -Times(x, y) == Times(-x, y) == Times(-1.0, Times(x, y))
    ensures Times(-1.0, y) == -y
    ensures Times(-x, -y) == Times(x, y)
  {
  }

  lemma Reassociate(x: real, y: real, z: real)
    ensures Times(x, Times(y, z)) == Times(y, Times(x, z)) == Times(Times(x, y), z) == Times(Times(x, z), y)
  {
  }

  // ---- one sum ----

  lemma {:induction false} SumExt(n: nat, f: int -> real, g: int -> real)
    requires forall i :: 0 <= i < n ==> f(i) == g(i)
    ensures Sum(n, f) == Sum(n, g)
  {
    if n > 0 {
      SumExt(n - 1, f, g);
    }
  }

  lemma {:induction false} SumAdd(n: nat, f: int -> real, g: int -> real, h: int -> real)
    requires forall i :: 0 <= i < n ==> h(i) == f(i) + g(i)
    ensures Sum(n, h) == Sum(n, f) + Sum(n, g)
  {
    if n > 0 {
      SumAdd(n - 1, f, g, h);
    }
  }

  lemma {:induction false} SumScale(n: nat, c: real, f: int -> real, h: int -> real)
    requires forall i :: 0 <= i < n ==> h(i) == Times(c, f(i))
    ensures Sum(n, h) == Times(c, Sum(n, f))
  {
    if n > 0 {
      SumScale(n - 1, c, f, h);
    }
  }

  lemma {:induction false} SumZero(n: nat, f: int -> real)
    requires forall i :: 0 <= i < n ==> f(i) == 0.0
    ensures Sum(n, f) == 0.0
  {
    if n > 0 {
      SumZero(n - 1, f);
    }
  }

  /** Terms beyond k that are zero do not count. */
  lemma {:induction false} SumTail(k: nat, n: nat, f: int -> real)
    requires k <= n
    requires forall i :: k <= i < n ==> f(i) == 0.0
    ensures Sum(n, f) == Sum(k, f)
  {
    if k < n {
      SumTail(k, n - 1, f);
    }
  }

  lemma {:induction false} SumLe(n: nat, f: int -> real, g: int -> real)
    requires forall i :: 0 <= i < n ==> f(i) <= g(i)
    ensures Sum(n, f) <= Sum(n, g)
  {
    if n > 0 {
      SumLe(n - 1, f, g);
    }
  }

  lemma {:induction false} SumNonNegative(n: nat, f: int -> real)
    requires forall i :: 0 <= i < n ==> f(i) >= 0.0
    ensures Sum(n, f) >= 0.0
  {
    if n > 0 {
      SumNonNegative(n - 1, f);
    }
  }

  lemma {:induction false} SumPositive(n: nat, f: int -> real, k: int)
    requires forall i :: 0 <= i < n ==> f(i) >= 0.0
    requires 0 <= k < n && f(k) > 0.0
    ensures Sum(n, f) > 0.0
  {
    if k == n - 1 {
      SumNonNegative(n - 1, f);
    } else {
      SumPositive(n - 1, f, k);
    }
  }

  /** A sum of one non-zero term. */
  lemma {:induction false} SumSingle(n: nat, f: int -> real, k: int)
    requires 0 <= k < n
    requires forall i :: 0 <= i < n && i != k ==> f(i) == 0.0
    ensures Sum(n, f) == f(k)
  {
    if k == n - 1 {
      SumZero(n - 1, f);
    } else {
      SumSingle(n - 1, f, k);
    }
  }

  // ---- nested sums ----

  lemma {:induction false} SumSwap(m: nat, n: nat, f: Entries)
    ensures Sum(m, (i: int) => RowSum(n, f, i)) == Sum(n, (j: int) => RowSum(m, Flip(f), j))
  {
    if m == 0 {
      SumZero(n, (j: int) => RowSum(m, Flip(f), j));
    } else {
      SumSwap(m - 1, n, f);
      SumAdd(n, (j: int) => RowSum(m - 1, Flip(f), j), (j: int) => f(m - 1, j), (j: int) => RowSum(m, Flip(f), j));
    }
  }

  lemma InnerExt(m: nat, n: nat, a: Entries, b: Entries, c: Entries, d: Entries)
    requires Agree(m, n, a, c) && Agree(m, n, b, d)
    ensures Inner(m, n, a, b) == Inner(m, n, c, d)
  {
    forall i | 0 <= i < m ensures RowInner(n, a, b, i) == RowInner(n, c, d, i) {
      SumExt(n, (j: int) => Times(a(i, j), b(i, j)), (j: int) => Times(c(i, j), d(i, j)));
    }
    SumExt(m, (i: int) => RowInner(n, a, b, i), (i: int) => RowInner(n, c, d, i));
  }

  lemma InnerComm(m: nat, n: nat, a: Entries, b: Entries)
    ensures Inner(m, n, a, b) == Inner(m, n, b, a)
  {
    forall i ensures RowInner(n, a, b, i) == RowInner(n, b, a, i) {
      forall j ensures Times(a(i, j), b(i, j)) == Times(b(i, j), a(i, j)) {
        Commute(a(i, j), b(i, j));
      }
      SumExt(n, (j: int) => Times(a(i, j), b(i, j)), (j: int) => Times(b(i, j), a(i, j)));
    }
    SumExt(m, (i: int) => RowInner(n, a, b, i), (i: int) => RowInner(n, b, a, i));
  }

  /** The inner product is additive in its right argument. */
  lemma InnerAdd(m: nat, n: nat, a: Entries, b: Entries, c: Entries)
    ensures Inner(m, n, a, Plus(b, c)) == Inner(m, n, a, b) + Inner(m, n, a, c)
  {
    forall i ensures RowInner(n, a, Plus(b, c), i) == RowInner(n, a, b, i) + RowInner(n, a, c, i) {
      forall j ensures Times(a(i, j), Plus(b, c)(i, j)) == Times(a(i, j), b(i, j)) + Times(a(i, j), c(i, j)) {
        Distribute(a(i, j), b(i, j), c(i, j));
      }
      SumAdd(n, (j: int) => Times(a(i, j), b(i, j)), (j: int) => Times(a(i, j), c(i, j)),
        (j: int) => Times(a(i, j), Plus(b, c)(i, j)));
    }
    SumAdd(m, (i: int) => RowInner(n, a, b, i), (i: int) => RowInner(n, a, c, i),
           (i: int) => RowInner(n, a, Plus(b, c), i));
  }

  lemma InnerScale(m: nat, n: nat, a: Entries, k: real, b: Entries)
    ensures Inner(m, n, a, Scaled(k, b)) == Times(k, Inner(m, n, a, b))
  {
    var s := Scaled(k, b);
    forall i ensures RowInner(n, a, s, i) == Times(k, RowInner(n, a, b, i)) {
      RowInnerScale(n, a, k, b, i);
    }
    var f: int -> real := (i: int) => RowInner(n, a, b, i);
    var g: int -> real := (i: int) => RowInner(n, a, s, i);
    SumScale(m, k, f, g);
    assert Inner(m, n, a, s) == Sum(m, g);
    assert Inner(m, n, a, b) == Sum(m, f);
  }

  lemma RowInnerScale(n: nat, a: Entries, k: real, b: Entries, i: int)
    ensures RowInner(n, a, Scaled(k, b), i) == Times(k, RowInner(n, a, b, i))
  {
    var s := Scaled(k, b);
    forall j ensures Times(a(i, j), s(i, j)) == Times(k, Times(a(i, j), b(i, j))) {
      Reassociate(a(i, j), k, b(i, j));
    }
    SumScale(n, k, (j: int) => Times(a(i, j), b(i, j)), (j: int) => Times(a(i, j), s(i, j)));
  }

  // ---- products ----

  lemma MulExt(m: nat, k: nat, n: nat, a: Entries, b: Entries, c: Entries, d: Entries)
    requires Agree(m, k, a, c) && Agree(k, n, b, d)
    ensures Agree(m, n, Mul(k, a, b), Mul(k, c, d))
  {
    forall i, j | 0 <= i < m && 0 <= j < n ensures Mul(k, a, b)(i, j) == Mul(k, c, d)(i, j) {
      SumExt(k, (l: int) => Times(a(i, l), b(l, j)), (l: int) => Times(c(i, l), d(l, j)));
    }
  }

  lemma MulAddLeft(k: nat, a: Entries, b: Entries, c: Entries, i: int, j: int)
    ensures Prod(k, Plus(a, b), c, i, j) == Prod(k, a, c, i, j) + Prod(k, b, c, i, j)
  {
    forall l ensures Times(Plus(a, b)(i, l), c(l, j)) == Times(a(i, l), c(l, j)) + Times(b(i, l), c(l, j)) {
      Distribute(c(l, j), a(i, l), b(i, l));
    }
    SumAdd(k, (l: int) => Times(a(i, l), c(l, j)), (l: int) => Times(b(i, l), c(l, j)),
      (l: int) => Times(Plus(a, b)(i, l), c(l, j)));
  }

  lemma MulAddRight(k: nat, a: Entries, b: Entries, c: Entries, i: int, j: int)
    ensures Prod(k, a, Plus(b, c), i, j) == Prod(k, a, b, i, j) + Prod(k, a, c, i, j)
  {
    forall l ensures Times(a(i, l), Plus(b, c)(l, j)) == Times(a(i, l), b(l, j)) + Times(a(i, l), c(l, j)) {
      Distribute(a(i, l), b(l, j), c(l, j));
    }
    SumAdd(k, (l: int) => Times(a(i, l), b(l, j)), (l: int) => Times(a(i, l), c(l, j)),
      (l: int) => Times(a(i, l), Plus(b, c)(l, j)));
  }

  /** Both sides of the row identity below are the same double sum of c(i,j) a(i,l) b(l,j). */
  function Triple(a: Entries, b: Entries, c: Entries, i: int): Entries {
    (j: int, l: int) => Times(Times(c(i, j), a(i, l)), b(l, j))
  }

  lemma TripleByProduct(k: nat, a: Entries, b: Entries, c: Entries, i: int, j: int)
    ensures Times(c(i, j), Prod(k, a, b, i, j)) == RowSum(k, Triple(a, b, c, i), j)
  {
    var f := Triple(a, b, c, i);
    forall l ensures f(j, l) == Times(c(i, j), Times(a(i, l), b(l, j))) {
      Reassociate(c(i, j), a(i, l), b(l, j));
    }
    SumScale(k, c(i, j), (l: int) => Times(a(i, l), b(l, j)), (l: int) => f(j, l));
  }

  lemma TripleByFlip(n: nat, a: Entries, b: Entries, c: Entries, i: int, l: int)
    ensures Times(Prod(n, c, Flip(b), i, l), a(i, l)) == RowSum(n, Flip(Triple(a, b, c, i)), l)
  {
    var f := Flip(Triple(a, b, c, i));
    forall j ensures f(l, j) == Times(a(i, l), Times(c(i, j), Flip(b)(j, l))) {
      Reassociate(c(i, j), a(i, l), b(l, j));
    }
    SumScale(n, a(i, l), (j: int) => Times(c(i, j), Flip(b)(j, l)), (j: int) => f(l, j));
  }

  lemma RowByProduct(k: nat, n: nat, a: Entries, b: Entries, c: Entries, i: int)
    ensures RowInner(n, c, Mul(k, a, b), i) == Sum(n, (j: int) => RowSum(k, Triple(a, b, c, i), j))
  {
    var f: int -> real := (j: int) => Times(c(i, j), Mul(k, a, b)(i, j));
    var g: int -> real := (j: int) => RowSum(k, Triple(a, b, c, i), j);
    forall j | 0 <= j < n ensures f(j) == g(j) {
      TripleByProduct(k, a, b, c, i, j);
    }
    SumExt(n, f, g);
  }

  lemma RowByFlip(k: nat, n: nat, a: Entries, b: Entries, c: Entries, i: int)
    ensures RowInner(k, Mul(n, c, Flip(b)), a, i) == Sum(k, (l: int) => RowSum(n, Flip(Triple(a, b, c, i)), l))
  {
    var f: int -> real := (l: int) => Times(Mul(n, c, Flip(b))(i, l), a(i, l));
    var g: int -> real := (l: int) => RowSum(n, Flip(Triple(a, b, c, i)), l);
    forall l | 0 <= l < k ensures f(l) == g(l) {
      TripleByFlip(n, a, b, c, i, l);
    }
    SumExt(k, f, g);
  }

  lemma AdjointOfRightFactorRow(k: nat, n: nat, a: Entries, b: Entries, c: Entries, i: int)
    ensures RowInner(n, c, Mul(k, a, b), i) == RowInner(k, Mul(n, c, Flip(b)), a, i)
  {
    RowByProduct(k, n, a, b, c, i);
    SumSwap(n, k, Triple(a, b, c, i));
    RowByFlip(k, n, a, b, c, i);
  }

  /** <C, A B> == <C B^T, A>: multiplication on the right by B is adjoint to multiplication by its transpose. */
  lemma AdjointOfRightFactor(m: nat, k: nat, n: nat, a: Entries, b: Entries, c: Entries)
    ensures Inner(m, n, c, Mul(k, a, b)) == Inner(m, k, Mul(n, c, Flip(b)), a)
  {
    forall i ensures RowInner(n, c, Mul(k, a, b), i) == RowInner(k, Mul(n, c, Flip(b)), a, i) {
      AdjointOfRightFactorRow(k, n, a, b, c, i);
    }
    SumExt(m, (i: int) => RowInner(n, c, Mul(k, a, b), i), (i: int) => RowInner(k, Mul(n, c, Flip(b)), a, i));
  }

  function Products(a: Entries, b: Entries): Entries {
    (i: int, j: int) => Times(a(i, j), b(i, j))
  }

  lemma InnerIsSum(m: nat, n: nat, a: Entries, b: Entries)
    ensures Inner(m, n, a, b) == Sum(m, (i: int) => RowSum(n, Products(a, b), i))
  {
    var p := Products(a, b);
    forall i ensures RowInner(n, a, b, i) == RowSum(n, p, i) {
      SumExt(n, (j: int) => Times(a(i, j), b(i, j)), (j: int) => p(i, j));
    }
    SumExt(m, (i: int) => RowInner(n, a, b, i), (i: int) => RowSum(n, Products(a, b), i));
  }

  lemma InnerIsFlippedSum(m: nat, n: nat, a: Entries, b: Entries)
    ensures Inner(n, m, Flip(a), Flip(b)) == Sum(n, (j: int) => RowSum(m, Flip(Products(a, b)), j))
  {
    var q, ta, tb := Products(a, b), Flip(a), Flip(b);
    var p := Flip(q);
    forall j ensures RowInner(m, ta, tb, j) == RowSum(m, p, j) {
      forall i ensures p(j, i) == Times(ta(j, i), tb(j, i)) {
        assert p(j, i) == q(i, j);
      }
      SumExt(m, (i: int) => Times(ta(j, i), tb(j, i)), (i: int) => p(j, i));
    }
    SumExt(n, (j: int) => RowInner(m, Flip(a), Flip(b), j), (j: int) => RowSum(m, Flip(Products(a, b)), j));
  }

  lemma InnerFlip(m: nat, n: nat, a: Entries, b: Entries)
    ensures Inner(m, n, a, b) == Inner(n, m, Flip(a), Flip(b))
  {
    InnerIsSum(m, n, a, b);
    SumSwap(m, n, Products(a, b));
    InnerIsFlippedSum(m, n, a, b);
  }

  lemma FlipMul(k: nat, a: Entries, b: Entries, i: int, j: int)
    ensures Prod(k, a, b, j, i) == Prod(k, Flip(b), Flip(a), i, j)
  {
    forall l ensures Times(a(j, l), b(l, i)) == Times(Flip(b)(i, l), Flip(a)(l, j)) {
      assert Flip(b)(i, l) == b(l, i) && Flip(a)(l, j) == a(j, l);
    }
    SumExt(k, (l: int) => Times(a(j, l), b(l, i)), (l: int) => Times(Flip(b)(i, l), Flip(a)(l, j)));
  }

  /** <C, A B> == <A^T C, B>: multiplication on the left by A is adjoint to multiplication by its transpose. */
  lemma AdjointOfLeftFactor(m: nat, k: nat, n: nat, a: Entries, b: Entries, c: Entries)
    ensures Inner(m, n, c, Mul(k, a, b)) == Inner(k, n, Mul(m, Flip(a), c), b)
  {
    InnerFlip(m, n, c, Mul(k, a, b));
    forall i, j ensures Flip(Mul(k, a, b))(i, j) == Mul(k, Flip(b), Flip(a))(i, j) {
      FlipMul(k, a, b, i, j);
    }
    InnerExt(n, m, Flip(c), Flip(Mul(k, a, b)), Flip(c), Mul(k, Flip(b), Flip(a)));
    AdjointOfRightFactor(n, k, m, Flip(b), Flip(a), Flip(c));
    var g := Mul(m, Flip(c), Flip(Flip(a)));
    InnerFlip(n, k, g, Flip(b));
    forall i, j ensures Flip(g)(i, j) == Mul(m, Flip(a), c)(i, j) {
      FlipMul(m, Flip(c), Flip(Flip(a)), i, j);
      SumExt(m, (l: int) => Times(Flip(Flip(Flip(a)))(i, l), Flip(Flip(c))(l, j)),
        (l: int) => Times(Flip(a)(i, l), c(l, j)));
    }
    InnerExt(k, n, Flip(g), Flip(Flip(b)), Mul(m, Flip(a), c), b);
  }
}
