/** Dual numbers against limits: a real function follows a dual number on a radius if it stays there within a constant
    times the square of the step of the line the dual number draws. Radius and constant are computed along. */
module Expansion {
  import opened Sums
  import opened Attention
  import opened Adam
  import opened Softmax

  /** The line of a dual number at a step. */
  function Line(d: Dual, h: real): real { d.v + Times(d.t, h) }

  /** At step h the function is that close to the line. */
  ghost predicate Close(f: real -> real, d: Dual, c: real, h: real) {
    Abs(f(h) - Line(d, h)) <= Times(c, Times(h, h))
  }

  /** On what radius, and with what constant, a function follows. */
  datatype Reach = Reach(radius: real, bound: real)

  ghost predicate Follows(f: real -> real, d: Dual, k: Reach) {
    && 0.0 < k.radius <= 1.0 && k.bound >= 0.0
    && forall h :: -k.radius <= h <= k.radius ==> Close(f, d, k.bound, h)
  }

  // ---- numbers ----

  lemma AbsOfTimes(a: real, b: real)
    ensures Abs(Times(a, b)) == Times(Abs(a), Abs(b))
  {
  }

  lemma AbsOfSum(a: real, b: real)
    ensures Abs(a + b) <= Abs(a) + Abs(b)
  {
  }

  lemma BothGrow(a: real, b: real, c: real, d: real)
    requires 0.0 <= a <= b && 0.0 <= c <= d
    ensures 0.0 <= Times(a, c) <= Times(b, d)
  {
    Monotone(a, b, c);
    Monotone(c, d, b);
    Commute(b, c);
    Commute(b, d);
    Monotone(0.0, a, c);
  }

  lemma SquareOfAbs(h: real)
    ensures Times(h, h) == Times(Abs(h), Abs(h)) >= 0.0
  {
  }

  lemma SquareFacts(h: real)
    requires Abs(h) <= 1.0
    ensures Times(h, h) == Times(Abs(h), Abs(h)) >= 0.0 && Times(h, h) <= Abs(h)
  {
    SquareOfAbs(h);
    Monotone(Abs(h), 1.0, Abs(h));
  }

  /** How far a followed value is from its start. */
  lemma Slope(t: real, e: real, c: real, h: real)
    requires Abs(h) <= 1.0 && c >= 0.0 && Abs(e) <= Times(c, Times(h, h))
    ensures Abs(Times(t, h) + e) <= Times(Abs(t) + c, Abs(h))
  {
    SquareFacts(h);
    AbsOfTimes(t, h);
    AbsOfSum(Times(t, h), e);
    Monotone(Times(h, h), Abs(h), c);
    Commute(c, Times(h, h));
    Commute(c, Abs(h));
    Distribute(Abs(h), Abs(t), c);
  }

  lemma FourTerms(a: real, b: real, c: real, d: real)
    ensures Times(a + b, c + d) == Times(a, c) + Times(a, d) + Times(b, c) + Times(b, d)
  {
    Distribute(c + d, a, b);
    Distribute(a, c, d);
    Distribute(b, c, d);
  }

  function ProductBound(a: Dual, ca: real, b: Dual, cb: real): real {
    Times(Abs(a.v), cb) + Times(ca, Abs(b.v)) + Times(Abs(a.t) + ca, Abs(b.t) + cb)
  }

  lemma ProductClose(a: Dual, x: real, ca: real, b: Dual, y: real, cb: real, h: real)
    requires Abs(h) <= 1.0 && ca >= 0.0 && cb >= 0.0
    requires Abs(x - Line(a, h)) <= Times(ca, Times(h, h))
    requires Abs(y - Line(b, h)) <= Times(cb, Times(h, h))
    ensures Abs(Times(x, y) - Line(DTimes(a, b), h)) <= Times(ProductBound(a, ca, b, cb), Times(h, h))
  {
    var q := Times(h, h);
    var ea, eb := x - Line(a, h), y - Line(b, h);
    var ua, ub := Times(a.t, h) + ea, Times(b.t, h) + eb;
    FourTerms(a.v, ua, b.v, ub);
    ProductRemainder(a, b, ea, eb, h);
    Slope(a.t, ea, ca, h);
    Slope(b.t, eb, cb, h);
    SquareFacts(h);
    // v_a e_b
    AbsOfTimes(a.v, eb);
    BothGrow(Abs(a.v), Abs(a.v), Abs(eb), Times(cb, q));
    Reassociate(Abs(a.v), cb, q);
    // e_a v_b
    AbsOfTimes(ea, b.v);
    BothGrow(Abs(ea), Times(ca, q), Abs(b.v), Abs(b.v));
    Reassociate(ca, q, Abs(b.v));
    // u_a u_b
    var ma, mb := Abs(a.t) + ca, Abs(b.t) + cb;
    AbsOfTimes(ua, ub);
    BothGrow(Abs(ua), Times(ma, Abs(h)), Abs(ub), Times(mb, Abs(h)));
    SquareOfTwoBounds(ma, mb, Abs(h));
    DistributeThree(Times(Abs(a.v), cb), Times(ca, Abs(b.v)), Times(ma, mb), q);
    AbsOfSum(Times(a.v, eb), Times(ea, b.v));
    AbsOfSum(Times(a.v, eb) + Times(ea, b.v), Times(ua, ub));
  }

  /** What is left of a product after its value and its line. */
  lemma ProductRemainder(a: Dual, b: Dual, ea: real, eb: real, h: real)
    ensures Times(a.v, Times(b.t, h) + eb) + Times(Times(a.t, h) + ea, b.v) - Times(DTimes(a, b).t, h)
      == Times(a.v, eb) + Times(ea, b.v)
  {
    Distribute(a.v, Times(b.t, h), eb);
    Distribute(b.v, Times(a.t, h), ea);
    Reassociate(a.v, b.t, h);
    Reassociate(a.t, h, b.v);
    Commute(Times(a.t, h), b.v);
    Distribute(h, Times(a.t, b.v), Times(a.v, b.t));
  }

  lemma SquareOfTwoBounds(a: real, b: real, h: real)
    ensures Times(Times(a, h), Times(b, h)) == Times(Times(a, b), Times(h, h))
  {
  }

  lemma DistributeThree(a: real, b: real, c: real, q: real)
    ensures Times(a + b + c, q) == Times(a, q) + Times(b, q) + Times(c, q)
  {
    Distribute(q, a + b, c);
    Distribute(q, a, b);
  }

  /** The quotient and its slope, multiplied back. */
  lemma DualQuotient(a: Dual, b: Dual)
    requires b.v > 0.0
    ensures Times(b.v, DOver(a, b).v) == a.v
    ensures Times(b.v, DOver(a, b).t) == a.t - Times(b.t, DOver(a, b).v)
  {
    OverTimes(a.v, b.v);
    Commute(b.v, DOver(a, b).v);
    var n, q := Times(a.t, b.v) - Times(a.v, b.t), DOver(a, b).v;
    PositiveTimes(b.v, b.v);
    OverTimes(n, Times(b.v, b.v));
    var t := DOver(a, b).t;
    Commute(Times(b.v, b.v), t);
    Reassociate(b.v, b.v, t);
    Reassociate(b.v, b.t, q);
    Commute(a.t, b.v);
    Commute(a.v, b.t);
    Distribute(b.v, a.t, -Times(b.t, q));
    Negate(b.v, Times(b.t, q));
    SameFactor(b.v, Times(b.v, t), a.t - Times(b.t, q));
  }

  lemma SameFactor(c: real, a: real, b: real)
    requires c > 0.0 && Times(c, a) == Times(c, b)
    ensures a == b
  {
    Commute(c, a);
    Commute(c, b);
    OverUnique(Times(c, a), c, a);
    OverUnique(Times(c, b), c, b);
  }

  function QuotientBound(a: Dual, ca: real, b: Dual, cb: real): real {
    var d := DOver(a, b);
    Over(2.0 * (Times(Abs(b.t), Abs(d.t)) + ca + Times(cb, Abs(d.v) + Abs(d.t))), b.v)
  }

  lemma QuotientClose(a: Dual, x: real, ca: real, b: Dual, y: real, cb: real, h: real)
    requires Abs(h) <= 1.0 && ca >= 0.0 && cb >= 0.0 && b.v > 0.0 && 2.0 * y >= b.v
    requires Abs(x - Line(a, h)) <= Times(ca, Times(h, h))
    requires Abs(y - Line(b, h)) <= Times(cb, Times(h, h))
    ensures Abs(Over(x, y) - Line(DOver(a, b), h)) <= Times(QuotientBound(a, ca, b, cb), Times(h, h))
  {
    var d, q := DOver(a, b), Times(h, h);
    var ea, eb := x - Line(a, h), y - Line(b, h);
    DualQuotient(a, b);
    QuotientRemainder(a, b, d, x, y, ea, eb, h);
    var num := x - Times(y, Line(d, h));
    var n1, n2, n3 := Times(Abs(b.t), Abs(d.t)), ca, Times(cb, Abs(d.v) + Abs(d.t));
    SquareFacts(h);
    // the three parts of the numerator
    AbsOfTimes(Times(b.t, d.t), q);
    AbsOfTimes(b.t, d.t);
    LineIsBounded(d, h);
    AbsOfTimes(eb, Line(d, h));
    BothGrow(Abs(eb), Times(cb, q), Abs(Line(d, h)), Abs(d.v) + Abs(d.t));
    Reassociate(cb, q, Abs(d.v) + Abs(d.t));
    AbsOfSum(ea, -Times(eb, Line(d, h)));
    AbsOfSum(ea - Times(eb, Line(d, h)), -Times(Times(b.t, d.t), q));
    DistributeThree(n1, n2, n3, q);
    DivideNumerator(x, y, Line(d, h), num, Times(n1 + n2 + n3, q), b.v);
    Reassociate(2.0, n1 + n2 + n3, q);
    DivideLater(2.0 * (n1 + n2 + n3), q, b.v);
  }

  lemma QuotientRemainder(a: Dual, b: Dual, d: Dual, x: real, y: real, ea: real, eb: real, h: real)
    requires Times(b.v, d.v) == a.v && Times(b.v, d.t) == a.t - Times(b.t, d.v)
    requires x == Line(a, h) + ea && y == Line(b, h) + eb
    ensures x - Times(y, Line(d, h)) == ea - Times(eb, Line(d, h)) - Times(Times(b.t, d.t), Times(h, h))
  {
    Distribute(Line(d, h), Line(b, h), eb);
    FourTerms(b.v, Times(b.t, h), d.v, Times(d.t, h));
    Reassociate(b.v, d.t, h);
    Reassociate(b.t, h, d.v);
    SquareOfTwoBounds(b.t, d.t, h);
    Distribute(h, a.t, -Times(b.t, d.v));
    Negate(Times(b.t, d.v), h);
    Commute(Times(b.t, d.v), h);
    Reassociate(b.t, d.v, h);
  }

  lemma LineIsBounded(d: Dual, h: real)
    requires Abs(h) <= 1.0
    ensures Abs(Line(d, h)) <= Abs(d.v) + Abs(d.t)
  {
    AbsOfTimes(d.t, h);
    AbsOfSum(d.v, Times(d.t, h));
    Monotone(Abs(h), 1.0, Abs(d.t));
    Commute(Abs(h), Abs(d.t));
  }

  lemma DivideNumerator(x: real, y: real, l: real, num: real, bound: real, v: real)
    requires v > 0.0 && 2.0 * y >= v && num == x - Times(y, l) && Abs(num) <= bound
    ensures Abs(Over(x, y) - l) <= Over(2.0 * bound, v)
  {
    var z := Over(x, y) - l;
    OverTimes(x, y);
    Commute(y, Over(x, y));
    Distribute(y, Over(x, y), -l);
    Negate(y, l);
    AbsOfTimes(y, z);
    Monotone(v, 2.0 * y, Abs(z));
    DivideBy(v, Abs(z), 2.0 * bound);
  }

  lemma DivideBy(v: real, z: real, bound: real)
    requires v > 0.0 && Times(v, z) <= bound
    ensures z <= Over(bound, v)
  {
    OverTimes(bound, v);
    Commute(v, Over(bound, v));
    if z > Over(bound, v) {
      PositiveTimes(v, z - Over(bound, v));
      Distribute(v, z, -Over(bound, v));
      Negate(v, Over(bound, v));
    }
  }

  lemma DivideLater(a: real, q: real, v: real)
    requires v > 0.0
    ensures Over(Times(a, q), v) == Times(Over(a, v), q)
  {
  }

  // ---- the exponential ----

  /** Near zero the exponential stays within the square of its argument of one plus the argument. */
  ghost predicate NearOne(exp: real -> real) {
    forall u :: -1.0 <= u <= 1.0 ==> NearOneAt(exp, u)
  }

  ghost predicate NearOneAt(exp: real -> real, u: real) {
    Abs(exp(u) - (1.0 + u)) <= Times(u, u)
  }

  function ExpBound(exp: real -> real, a: Dual, c: real): real {
    Times(exp(a.v), Times(Abs(a.t) + c, Abs(a.t) + c) + c)
  }

  lemma {:induction false} ExpClose(exp: real -> real, a: Dual, x: real, c: real, h: real)
    requires IsExp(exp) && NearOne(exp) && Abs(h) <= 1.0 && c >= 0.0
    requires Abs(x - Line(a, h)) <= Times(c, Times(h, h))
    requires Times(Abs(a.t) + c, Abs(h)) <= 1.0
    ensures Abs(exp(x) - Line(DExp(exp, a), h)) <= Times(ExpBound(exp, a, c), Times(h, h))
  {
    var e := x - Line(a, h);
    var u, v, q, m := Times(a.t, h) + e, exp(a.v), Times(h, h), Abs(a.t) + c;
    Slope(a.t, e, c, h);
    assert x == a.v + u && ExpLaw(exp, a.v + u, a.v) && (a.v + u) - a.v == u;
    assert NearOneAt(exp, u) && ExpLaw(exp, a.v, a.v);
    var w := exp(u) - (1.0 + u);
    // u^2 <= m^2 q
    AbsOfTimes(u, u);
    BothGrow(Abs(u), Times(m, Abs(h)), Abs(u), Times(m, Abs(h)));
    SquareOfTwoBounds(m, m, Abs(h));
    SquareFacts(h);
    // exp(x) - line = v (w + e)
    Commute(exp(u), v);
    ExpRemainder(v, exp(u), a.t, e, h, w);
    AbsOfTimes(v, w + e);
    AbsOfSum(w, e);
    Distribute(q, Times(m, m), c);
    Monotone(Abs(w + e), Times(Times(m, m) + c, q), v);
    Commute(v, Abs(w + e));
    Commute(v, Times(Times(m, m) + c, q));
    Reassociate(v, Times(m, m) + c, q);
  }

  lemma ExpRemainder(v: real, eu: real, t: real, e: real, h: real, w: real)
    requires w == eu - (1.0 + (Times(t, h) + e))
    ensures Times(v, eu) - (v + Times(Times(v, t), h)) == Times(v, w + e)
  {
    Reassociate(v, t, h);
    Distribute(v, 1.0 + Times(t, h), w + e);
    Distribute(v, 1.0, Times(t, h));
    assert eu == (1.0 + Times(t, h)) + (w + e);
  }

  // ---- rules ----

  lemma Narrower(f: real -> real, d: Dual, k: Reach, r: real)
    requires Follows(f, d, k) && 0.0 < r <= k.radius
    ensures Follows(f, d, Reach(r, k.bound))
  {
    forall h | -r <= h <= r ensures Close(f, d, k.bound, h) {
    }
  }

  function Least(a: real, b: real): real { if a <= b then a else b }

  /** Two functions that follow do so on the lesser radius. */
  lemma Together(f: real -> real, a: Dual, ka: Reach, g: real -> real, b: Dual, kb: Reach)
    requires Follows(f, a, ka) && Follows(g, b, kb)
    ensures var r := Least(ka.radius, kb.radius);
      Follows(f, a, Reach(r, ka.bound)) && Follows(g, b, Reach(r, kb.bound))
  {
    Narrower(f, a, ka, Least(ka.radius, kb.radius));
    Narrower(g, b, kb, Least(ka.radius, kb.radius));
  }

  lemma FollowsExt(f: real -> real, g: real -> real, d: Dual, k: Reach)
    requires Follows(f, d, k) && forall h :: f(h) == g(h)
    ensures Follows(g, d, k)
  {
    forall h | -k.radius <= h <= k.radius ensures Close(g, d, k.bound, h) {
      assert Close(f, d, k.bound, h);
    }
  }

  /** Nothing to spare is needed for a line. */
  const EXACT := Reach(1.0, 0.0)

  lemma LineFollows(f: real -> real, d: Dual)
    requires forall h :: f(h) == Line(d, h)
    ensures Follows(f, d, EXACT)
  {
    forall h | -1.0 <= h <= 1.0 ensures Close(f, d, 0.0, h) {
      TimesZero(Times(h, h));
    }
  }

  lemma ConstantFollows(f: real -> real, c: real)
    requires forall h :: f(h) == c
    ensures Follows(f, DConst(c), EXACT)
  {
    forall h ensures f(h) == Line(DConst(c), h) {
      TimesZero(h);
    }
    LineFollows(f, DConst(c));
  }

  function SumReach(ka: Reach, kb: Reach): Reach { Reach(Least(ka.radius, kb.radius), ka.bound + kb.bound) }

  lemma SumFollows(f: real -> real, a: Dual, ka: Reach, g: real -> real, b: Dual, kb: Reach, s: real -> real)
    requires Follows(f, a, ka) && Follows(g, b, kb) && forall h :: s(h) == f(h) + g(h)
    ensures Follows(s, DAdd(a, b), SumReach(ka, kb))
  {
    Together(f, a, ka, g, b, kb);
    var r, ca, cb := Least(ka.radius, kb.radius), ka.bound, kb.bound;
    var c := ca + cb;
    forall h | -r <= h <= r ensures Close(s, DAdd(a, b), c, h) {
      assert Close(f, a, ca, h) && Close(g, b, cb, h);
      Distribute(h, a.t, b.t);
      Distribute(Times(h, h), ca, cb);
      AbsOfSum(f(h) - Line(a, h), g(h) - Line(b, h));
    }
  }

  lemma DifferenceFollows(f: real -> real, a: Dual, ka: Reach, g: real -> real, b: Dual, kb: Reach, s: real -> real)
    requires Follows(f, a, ka) && Follows(g, b, kb) && forall h :: s(h) == f(h) - g(h)
    ensures Follows(s, DSub(a, b), SumReach(ka, kb))
  {
    Together(f, a, ka, g, b, kb);
    var r, ca, cb := Least(ka.radius, kb.radius), ka.bound, kb.bound;
    var c := ca + cb;
    forall h | -r <= h <= r ensures Close(s, DSub(a, b), c, h) {
      assert Close(f, a, ca, h) && Close(g, b, cb, h);
      Distribute(h, a.t, -b.t);
      Negate(b.t, h);
      Distribute(Times(h, h), ca, cb);
      AbsOfSum(f(h) - Line(a, h), -(g(h) - Line(b, h)));
    }
  }

  function ProductReach(a: Dual, ka: Reach, b: Dual, kb: Reach): Reach {
    Reach(Least(ka.radius, kb.radius), ProductBound(a, ka.bound, b, kb.bound))
  }

  lemma ProductFollows(f: real -> real, a: Dual, ka: Reach, g: real -> real, b: Dual, kb: Reach, s: real -> real)
    requires Follows(f, a, ka) && Follows(g, b, kb) && forall h :: s(h) == Times(f(h), g(h))
    ensures Follows(s, DTimes(a, b), ProductReach(a, ka, b, kb))
  {
    Together(f, a, ka, g, b, kb);
    var r, ca, cb := Least(ka.radius, kb.radius), ka.bound, kb.bound;
    NonNegativeTimes(Abs(a.v), cb);
    NonNegativeTimes(ca, Abs(b.v));
    NonNegativeTimes(Abs(a.t) + ca, Abs(b.t) + cb);
    forall h | -r <= h <= r ensures Close(s, DTimes(a, b), ProductBound(a, ca, b, cb), h) {
      assert Close(f, a, ca, h) && Close(g, b, cb, h);
      ProductClose(a, f(h), ca, b, g(h), cb, h);
    }
  }

  /** A radius on which a slope stays below a positive bound. */
  function Radius(r: real, m: real, bound: real): real { Least(r, Over(bound, m + 1.0)) }

  lemma RadiusWorks(r: real, m: real, bound: real, h: real)
    requires r > 0.0 && m >= 0.0 && bound > 0.0 && Abs(h) <= Radius(r, m, bound)
    ensures 0.0 < Radius(r, m, bound) <= r && Times(m, Abs(h)) <= bound
  {
    var n := m + 1.0;
    PositiveQuotient(bound, n);
    OverTimes(bound, n);
    Monotone(Abs(h), Over(bound, n), n);
    Monotone(m, n, Abs(h));
    Commute(Abs(h), n);
  }

  lemma RadiusIsPositive(r: real, m: real, bound: real)
    requires r > 0.0 && m >= 0.0 && bound > 0.0
    ensures 0.0 < Radius(r, m, bound) <= r
  {
    PositiveQuotient(bound, m + 1.0);
  }

  function QuotientReach(a: Dual, ka: Reach, b: Dual, kb: Reach): Reach {
    Reach(
      Radius(Least(ka.radius, kb.radius), Abs(b.t) + kb.bound, b.v / 2.0),
      QuotientBound(a, ka.bound, b, kb.bound))
  }

  lemma QuotientFollows(f: real -> real, a: Dual, ka: Reach, g: real -> real, b: Dual, kb: Reach, s: real -> real)
    requires Follows(f, a, ka) && Follows(g, b, kb) && b.v > 0.0 && forall h :: s(h) == Over(f(h), g(h))
    ensures Follows(s, DOver(a, b), QuotientReach(a, ka, b, kb))
  {
    Together(f, a, ka, g, b, kb);
    var r0, m, ca, cb := Least(ka.radius, kb.radius), Abs(b.t) + kb.bound, ka.bound, kb.bound;
    var r := Radius(r0, m, b.v / 2.0);
    RadiusIsPositive(r0, m, b.v / 2.0);
    QuotientBoundIsNonNegative(a, ca, b, cb);
    forall h | -r <= h <= r ensures Close(s, DOver(a, b), QuotientBound(a, ca, b, cb), h) {
      assert Close(f, a, ca, h) && Close(g, b, cb, h);
      RadiusWorks(r0, m, b.v / 2.0, h);
      Slope(b.t, g(h) - Line(b, h), cb, h);
      QuotientClose(a, f(h), ca, b, g(h), cb, h);
    }
  }

  lemma QuotientBoundIsNonNegative(a: Dual, ca: real, b: Dual, cb: real)
    requires ca >= 0.0 && cb >= 0.0 && b.v > 0.0
    ensures QuotientBound(a, ca, b, cb) >= 0.0
  {
    var d := DOver(a, b);
    NonNegativeTimes(Abs(b.t), Abs(d.t));
    NonNegativeTimes(cb, Abs(d.v) + Abs(d.t));
  }

  function ExpReach(exp: real -> real, a: Dual, k: Reach): Reach {
    Reach(Radius(k.radius, Abs(a.t) + k.bound, 1.0), ExpBound(exp, a, k.bound))
  }

  lemma ExpFollows(exp: real -> real, f: real -> real, a: Dual, k: Reach, s: real -> real)
    requires IsExp(exp) && NearOne(exp) && Follows(f, a, k) && forall h :: s(h) == exp(f(h))
    ensures Follows(s, DExp(exp, a), ExpReach(exp, a, k))
  {
    var m, c := Abs(a.t) + k.bound, ExpBound(exp, a, k.bound);
    var r := Radius(k.radius, m, 1.0);
    RadiusIsPositive(k.radius, m, 1.0);
    assert ExpLaw(exp, a.v, a.v);
    NonNegativeTimes(m, m);
    NonNegativeTimes(exp(a.v), Times(m, m) + k.bound);
    forall h | -r <= h <= r ensures Close(s, DExp(exp, a), c, h) {
      assert Close(f, a, k.bound, h);
      RadiusWorks(k.radius, m, 1.0, h);
      ExpClose(exp, a, f(h), k.bound, h);
    }
  }
}
