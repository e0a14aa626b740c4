/** Limits and derivatives of real functions at 0, in the usual epsilon-delta sense.
    A curve is a function of one real parameter; the Jacobian theorems differentiate the
    assembled residual along curves h -> x + h*v. */
module Calculus {

  /** The argument of a curve, kept apart from its values. */
  newtype Arg = real

  type Curve = Arg -> real

  predicate Near(x: real, y: real, e: real) {
    -e <= x - y <= e
  }

  ghost predicate NearWithin(q: Curve, l: real, e: real, delta: real) {
    forall h: Arg :: h != 0.0 && -delta < h as real < delta ==> Near(q(h), l, e)
  }

  ghost predicate EventuallyNear(q: Curve, l: real, e: real) {
    exists delta: real :: delta > 0.0 && NearWithin(q, l, e, delta)
  }

  /** q(h) tends to l as h tends to 0; the value q(0) plays no role. */
  ghost predicate Tends(q: Curve, l: real) {
    forall e: real :: e > 0.0 ==> EventuallyNear(q, l, e)
  }

  function Min(x: real, y: real): real { if x < y then x else y }

  function Abs(x: real): (r: real)
    ensures r >= 0.0 && -r <= x <= r && (r == x || r == -x)
  {
    if x < 0.0 then -x else x
  }

  lemma Radius(q: Curve, l: real, e: real) returns (delta: real)
    requires Tends(q, l) && e > 0.0
    ensures delta > 0.0 && NearWithin(q, l, e, delta)
  {
    assert EventuallyNear(q, l, e);
    delta :| delta > 0.0 && NearWithin(q, l, e, delta);
  }

  /** A product kept as one term. */
  function Product(x: real, y: real): real { x * y }

  lemma Positive(a: real, b: real)
    requires a > 0.0 && b > 0.0
    ensures a * b > 0.0
  {}

  lemma NonNegative(a: real, b: real)
    requires a >= 0.0 && b >= 0.0
    ensures a * b >= 0.0
  {}

  lemma Cancel(a: real, b: real, c: real)
    requires a * c <= b * c && c > 0.0
    ensures a <= b
  {
    var d := a - b;
    assert d * c <= 0.0;
    if d > 0.0 { Positive(d, c); }
  }

  lemma ProductMono(x: real, y: real, u: real, v: real)
    requires 0.0 <= x <= u && 0.0 <= y <= v
    ensures 0.0 <= x * y <= u * v
  {
    assert (u - x) * y >= 0.0;
    assert u * (v - y) >= 0.0;
    assert x * y >= 0.0;
  }

  lemma ScaleNear(k: real, c: real, x: real, y: real, e: real)
    requires -c <= k <= c && Near(x, y, e) && e >= 0.0
    ensures Near(k * x, k * y, c * e)
  {
    var d := x - y;
    assert (c - k) * (e - d) >= 0.0;
    assert (c - k) * (e + d) >= 0.0;
    assert (c + k) * (e - d) >= 0.0;
    assert (c + k) * (e + d) >= 0.0;
    assert k * x - k * y == k * d;
  }

  /** Limits only depend on the values near 0. */
  lemma TendsLocal(q: Curve, p: Curve, l: real, radius: real)
    requires Tends(q, l) && radius > 0.0
    requires forall h: Arg :: h != 0.0 && -radius < h as real < radius ==> p(h) == q(h)
    ensures Tends(p, l)
  {
    forall e: real | e > 0.0 ensures EventuallyNear(p, l, e) {
      var d := Radius(q, l, e);
      assert NearWithin(p, l, e, Min(d, radius));
    }
  }

  lemma TendsConst(q: Curve, c: real)
    requires forall h: Arg :: q(h) == c
    ensures Tends(q, c)
  {
    forall e: real | e > 0.0 ensures EventuallyNear(q, c, e) {
      assert NearWithin(q, c, e, 1.0);
    }
  }

  lemma TendsIdentity(q: Curve)
    requires forall h: Arg :: q(h) == h as real
    ensures Tends(q, 0.0)
  {
    forall e: real | e > 0.0 ensures EventuallyNear(q, 0.0, e) {
      assert NearWithin(q, 0.0, e, e);
    }
  }

  lemma TendsSum(f: Curve, a: real, g: Curve, b: real, s: Curve, l: real)
    requires Tends(f, a) && Tends(g, b) && l == a + b
    requires forall h: Arg :: h != 0.0 ==> s(h) == f(h) + g(h)
    ensures Tends(s, l)
  {
    forall e: real | e > 0.0 ensures EventuallyNear(s, l, e) {
      var d1 := Radius(f, a, e / 2.0);
      var d2 := Radius(g, b, e / 2.0);
      assert NearWithin(s, l, e, Min(d1, d2));
    }
  }

  lemma Quotient(e: real, m: real) returns (q: real)
    requires e > 0.0 && m > 0.0
    ensures q > 0.0 && q * m == e
  {
    q := e / m;
  }

  lemma TendsProduct(f: Curve, a: real, g: Curve, b: real, p: Curve, l: real)
    requires Tends(f, a) && Tends(g, b) && l == a * b
    requires forall h: Arg :: h != 0.0 ==> p(h) == f(h) * g(h)
    ensures Tends(p, l)
  {
    forall e: real | e > 0.0 ensures EventuallyNear(p, l, e) {
      var q := Quotient(e, 1.0 + Abs(a) + Abs(b));
      var t := Min(1.0, q);
      var d1 := Radius(f, a, t);
      var d2 := Radius(g, b, t);
      var d := Min(d1, d2);
      forall h: Arg | h != 0.0 && -d < h as real < d ensures Near(p(h), l, e) {
        ProductNear(f(h), a, Abs(a), g(h), b, Abs(b), t, q, e);
      }
      assert NearWithin(p, l, e, d);
    }
  }

  lemma ProductNear(x: real, a: real, ka: real, y: real, b: real, kb: real, t: real, q: real, e: real)
    requires Near(x, a, t) && Near(y, b, t) && 0.0 < t <= 1.0 && t <= q
    requires -ka <= a <= ka && -kb <= b <= kb
    requires q * (1.0 + ka + kb) == e
    ensures Near(x * y, a * b, e)
  {
    var u, w := x - a, y - b;
    var uw, aw, bu, at, bt := u * w, a * w, b * u, ka * t, kb * t;
    assert -t <= uw <= t by { BoundProduct(u, 1.0, w, t); }
    assert -at <= aw <= at by { BoundProduct(a, ka, w, t); }
    assert -bt <= bu <= bt by { BoundProduct(b, kb, u, t); }
    assert t + at + bt <= e by {
      SplitBound(t, ka, kb);
      ProductMono(t, 1.0 + ka + kb, q, 1.0 + ka + kb);
    }
    ExpandProduct(x, a, y, b);
    NearBySum(x * y, a * b, uw, aw, bu, e);
  }

  lemma NearBySum(l: real, r: real, a: real, b: real, c: real, e: real)
    requires l - r == a + b + c && -e <= a + b + c <= e
    ensures Near(l, r, e)
  {}

  lemma SplitBound(t: real, ka: real, kb: real)
    ensures t * (1.0 + ka + kb) == 1.0 * t + ka * t + kb * t
  {}

  lemma BoundProduct(k: real, c: real, d: real, e: real)
    requires -c <= k <= c && -e <= d <= e
    ensures -(c * e) <= k * d <= c * e
  {
    assert (c - k) * (e + d) >= 0.0;
    assert (c + k) * (e - d) >= 0.0;
    assert (c - k) * (e - d) >= 0.0;
    assert (c + k) * (e + d) >= 0.0;
  }

  lemma ExpandProduct(x: real, a: real, y: real, b: real)
    ensures x * y - a * b == (x - a) * (y - b) + a * (y - b) + b * (x - a)
  {}

  lemma TendsScale(f: Curve, a: real, k: real, p: Curve, l: real)
    requires Tends(f, a) && l == k * a
    requires forall h: Arg :: h != 0.0 ==> p(h) == k * f(h)
    ensures Tends(p, l)
  {
    var c: Curve := (h: Arg) => k;
    TendsConst(c, k);
    TendsProduct(c, k, f, a, p, l);
  }

  lemma TendsReciprocal(f: Curve, a: real, r: Curve, b: real)
    requires Tends(f, a) && a * b == 1.0
    requires forall h: Arg :: h != 0.0 && f(h) != 0.0 ==> r(h) * f(h) == 1.0
    ensures Tends(r, b)
  {
    var k := Abs(b);
    assert k > 0.0;
    assert 2.0 * k > 0.0;
    forall e: real | e > 0.0 ensures EventuallyNear(r, b, e) {
      var s := Quotient(e, 2.0 * k);
      var q1 := Quotient(0.5, k);
      var q2 := Quotient(s, k);
      var t := Min(q1, q2);
      var d := Radius(f, a, t);
      forall h: Arg | h != 0.0 && -d < h as real < d ensures Near(r(h), b, e) {
        var z := RelativeError(f(h), a, b, k, t, q1, 0.5);
        z := RelativeError(f(h), a, b, k, t, q2, s);
        ReciprocalError(f(h), r(h), b, z);
        ReciprocalNear(r(h), b, k, z, s, e);
      }
      assert NearWithin(r, b, e, d);
    }
  }

  /** With f(0) = a = 1/b, the relative error b*x - 1 of x = f(h) is small. */
  lemma RelativeError(x: real, a: real, b: real, k: real, t: real, q: real, e: real) returns (z: real)
    requires a * b == 1.0 && Near(x, a, t) && -k <= b <= k && 0.0 <= t <= q && q * k == e && k > 0.0
    ensures z == b * x - 1.0 && -e <= z <= e
    ensures e < 1.0 ==> x != 0.0
  {
    BoundProduct(b, k, x - a, t);
    ProductMono(k, t, k, q);
    assert b * (x - a) == b * x - 1.0;
    z := b * x - 1.0;
  }

  lemma ReciprocalError(x: real, y: real, b: real, z: real)
    requires y * x == 1.0 && z == b * x - 1.0
    ensures y * z == b - y
  {
    assert y * (b * x) == b * (y * x);
  }

  lemma ReciprocalNear(y: real, b: real, k: real, z: real, s: real, e: real)
    requires y * z == b - y && -k <= b <= k && k > 0.0
    requires -0.5 <= z <= 0.5 && -s <= z <= s && (2.0 * k) * s == e
    ensures Near(y, b, e)
  {
    ReciprocalBounded(y, z, b, k);
    ReciprocalClose(y, z, k, s);
  }

  lemma ReciprocalBounded(y: real, z: real, b: real, k: real)
    requires y * z == b - y && -k <= b <= k && -0.5 <= z <= 0.5
    ensures -2.0 * k <= y <= 2.0 * k
  {
    BoundProduct(y, Abs(y), z, 0.5);
  }

  lemma ReciprocalClose(y: real, z: real, k: real, s: real)
    requires -2.0 * k <= y <= 2.0 * k && -s <= z <= s
    ensures -((2.0 * k) * s) <= y * z <= (2.0 * k) * s
  {
    BoundProduct(y, 2.0 * k, z, s);
  }

  /** Difference quotient of f at 0. */
  function Slope(f: Curve): Curve {
    (h: Arg) => if h == 0.0 then 0.0 else (f(h) - f(0.0)) / h as real
  }

  /** f is differentiable at 0 with derivative d. */
  ghost predicate HasDeriv(f: Curve, d: real) {
    Tends(Slope(f), d)
  }

  lemma SlopeTimes(f: Curve, h: Arg)
    requires h != 0.0
    ensures Slope(f)(h) * h as real == f(h) - f(0.0)
  {
  }

  lemma SlopeIs(f: Curve, h: Arg, q: real)
    requires h != 0.0 && q * h as real == f(h) - f(0.0)
    ensures Slope(f)(h) == q
  {
    var s := Slope(f)(h);
    assert (s - q) * h as real == 0.0 by { SlopeTimes(f, h); }
  }

  /** Differentiable curves are continuous at 0. */
  lemma DerivContinuous(f: Curve, d: real)
    requires HasDeriv(f, d)
    ensures Tends(f, f(0.0))
  {
    var id: Curve := (h: Arg) => h as real;
    var c: Curve := (h: Arg) => f(0.0);
    var p: Curve := (h: Arg) => Slope(f)(h) * h as real;
    TendsIdentity(id);
    TendsConst(c, f(0.0));
    TendsProduct(Slope(f), d, id, 0.0, p, 0.0);
    forall h: Arg | h != 0.0 ensures f(h) == p(h) + c(h) {
      SlopeTimes(f, h);
    }
    TendsSum(p, 0.0, c, f(0.0), f, f(0.0));
  }

  lemma DerivLocal(f: Curve, g: Curve, d: real, radius: real)
    requires HasDeriv(f, d) && radius > 0.0
    requires forall h: Arg :: -radius < h as real < radius ==> g(h) == f(h)
    ensures HasDeriv(g, d)
  {
    assert g(0.0) == f(0.0);
    TendsLocal(Slope(f), Slope(g), d, radius);
  }

  lemma DerivSame(f: Curve, g: Curve, d: real)
    requires HasDeriv(f, d)
    requires forall h: Arg :: g(h) == f(h)
    ensures HasDeriv(g, d)
  {
    DerivLocal(f, g, d, 1.0);
  }

  lemma DerivAffine(f: Curve, a: real, b: real)
    requires forall h: Arg :: f(h) == a + h as real * b
    ensures HasDeriv(f, b)
  {
    var c: Curve := (h: Arg) => b;
    TendsConst(c, b);
    forall h: Arg | h != 0.0 ensures Slope(f)(h) == c(h) {
      SlopeIs(f, h, b);
    }
    TendsLocal(c, Slope(f), b, 1.0);
  }

  lemma DerivConst(f: Curve, a: real)
    requires forall h: Arg :: f(h) == a
    ensures HasDeriv(f, 0.0)
  {
    forall h: Arg ensures f(h) == a + h as real * 0.0 {}
    DerivAffine(f, a, 0.0);
  }

  lemma DerivSum(f: Curve, df: real, g: Curve, dg: real, s: Curve, d: real)
    requires HasDeriv(f, df) && HasDeriv(g, dg) && d == df + dg
    requires forall h: Arg :: s(h) == f(h) + g(h)
    ensures HasDeriv(s, d)
  {
    forall h: Arg | h != 0.0 ensures Slope(s)(h) == Slope(f)(h) + Slope(g)(h) {
      SlopeTimes(f, h);
      SlopeTimes(g, h);
      SlopeIs(s, h, Slope(f)(h) + Slope(g)(h));
    }
    TendsSum(Slope(f), df, Slope(g), dg, Slope(s), d);
  }

  lemma DerivProduct(f: Curve, df: real, g: Curve, dg: real, p: Curve, d: real)
    requires HasDeriv(f, df) && HasDeriv(g, dg)
    requires d == df * g(0.0) + f(0.0) * dg
    requires forall h: Arg :: p(h) == f(h) * g(h)
    ensures HasDeriv(p, d)
  {
    var g0, f0 := g(0.0), f(0.0);
    DerivContinuous(g, dg);
    var u, w := Times(Slope(f), g), Scaled(f0, Slope(g));
    ProductSlopes(f, g, p, u, w);
    ProductLimit(Slope(f), df, g, g0, f0, Slope(g), dg, u, w, Slope(p), d);
  }

  function Times(f: Curve, g: Curve): (p: Curve)
    ensures forall h: Arg {:trigger p(h)} :: p(h) == f(h) * g(h)
  {
    (h: Arg) => f(h) * g(h)
  }

  function Plus(f: Curve, g: Curve): (p: Curve)
    ensures forall h: Arg {:trigger p(h)} :: p(h) == f(h) + g(h)
  {
    (h: Arg) => f(h) + g(h)
  }

  function Minus(f: Curve, g: Curve): (p: Curve)
    ensures forall h: Arg {:trigger p(h)} :: p(h) == f(h) - g(h)
  {
    (h: Arg) => f(h) - g(h)
  }

  function Constant(c: real): (p: Curve)
    ensures forall h: Arg {:trigger p(h)} :: p(h) == c
  {
    (h: Arg) => c
  }

  function Scaled(k: real, f: Curve): (p: Curve)
    ensures forall h: Arg {:trigger p(h)} :: p(h) == k * f(h)
  {
    (h: Arg) => k * f(h)
  }

  lemma ProductLimit(sf: Curve, df: real, g: Curve, g0: real, f0: real, sg: Curve, dg: real,
                     u: Curve, w: Curve, sp: Curve, d: real)
    requires Tends(sf, df) && Tends(g, g0) && Tends(sg, dg) && d == df * g0 + f0 * dg
    requires u == Times(sf, g) && w == Scaled(f0, sg)
    requires forall h: Arg :: h != 0.0 ==> sp(h) == u(h) + w(h)
    ensures Tends(sp, d)
  {
    var du, dw := df * g0, f0 * dg;
    TendsProduct(sf, df, g, g0, u, du);
    TendsScale(sg, dg, f0, w, dw);
    TendsSum(u, du, w, dw, sp, d);
  }

  lemma ProductSlopes(f: Curve, g: Curve, p: Curve, u: Curve, w: Curve)
    requires forall h: Arg :: p(h) == f(h) * g(h)
    requires u == Times(Slope(f), g) && w == Scaled(f(0.0), Slope(g))
    ensures forall h: Arg :: h != 0.0 ==> Slope(p)(h) == u(h) + w(h)
  {
    forall h: Arg | h != 0.0 ensures Slope(p)(h) == u(h) + w(h) {
      ProductSlope(f, g, p, h, u(h) + w(h));
    }
  }

  lemma ProductSlope(f: Curve, g: Curve, p: Curve, h: Arg, s: real)
    requires h != 0.0 && p(h) == f(h) * g(h) && p(0.0) == f(0.0) * g(0.0)
    requires s == Slope(f)(h) * g(h) + f(0.0) * Slope(g)(h)
    ensures Slope(p)(h) == s
  {
    SlopeTimes(f, h);
    SlopeTimes(g, h);
    ProductDifference(f(0.0), f(h), g(0.0), g(h), Slope(f)(h), Slope(g)(h), h as real);
    SlopeIs(p, h, s);
  }

  lemma ProductDifference(f0: real, f1: real, g0: real, g1: real, sf: real, sg: real, h: real)
    requires sf * h == f1 - f0 && sg * h == g1 - g0
    ensures (sf * g1 + f0 * sg) * h == f1 * g1 - f0 * g0
  {
    assert (sf * g1) * h == (sf * h) * g1;
    assert (f0 * sg) * h == f0 * (sg * h);
  }

  lemma DerivScale(f: Curve, df: real, k: real, p: Curve, d: real)
    requires HasDeriv(f, df) && d == k * df
    requires forall h: Arg :: p(h) == k * f(h)
    ensures HasDeriv(p, d)
  {
    forall h: Arg | h != 0.0 ensures Slope(p)(h) == k * Slope(f)(h) {
      SlopeTimes(f, h);
      assert (k * Slope(f)(h)) * h as real == k * (Slope(f)(h) * h as real);
      SlopeIs(p, h, k * Slope(f)(h));
    }
    TendsScale(Slope(f), df, k, Slope(p), d);
  }

  lemma DerivDiff(f: Curve, df: real, g: Curve, dg: real, s: Curve, d: real)
    requires HasDeriv(f, df) && HasDeriv(g, dg) && d == df - dg
    requires forall h: Arg :: s(h) == f(h) - g(h)
    ensures HasDeriv(s, d)
  {
    var n: Curve := (h: Arg) => -1.0 * g(h);
    DerivScale(g, dg, -1.0, n, -dg);
    DerivSum(f, df, n, -dg, s, d);
  }

  lemma DerivReciprocal(f: Curve, df: real, r: Curve, d: real)
    requires HasDeriv(f, df) && f(0.0) != 0.0 && d == -(r(0.0) * (df * r(0.0)))
    requires forall h: Arg :: f(h) != 0.0 ==> r(h) * f(h) == 1.0
    ensures HasDeriv(r, d)
  {
    var r0 := r(0.0);
    DerivContinuous(f, df);
    TendsReciprocal(f, f(0.0), r, r0);
    // near 0, r(h) - r(0) = -(f(h) - f(0)) r(h) r(0)
    var u := Times(Slope(f), r);
    var w := Scaled(-r0, u);
    var delta := Radius(f, f(0.0), Abs(f(0.0)) / 2.0);
    ReciprocalSlopes(f, r, u, w, delta);
    ReciprocalLimit(Slope(f), df, r, r0, u, w, Slope(r), delta, d);
  }

  lemma ReciprocalLimit(sf: Curve, df: real, r: Curve, r0: real, u: Curve, w: Curve,
                        sr: Curve, delta: real, d: real)
    requires Tends(sf, df) && Tends(r, r0) && d == -(r0 * (df * r0)) && delta > 0.0
    requires u == Times(sf, r) && w == Scaled(-r0, u)
    requires forall h: Arg :: h != 0.0 && -delta < h as real < delta ==> sr(h) == w(h)
    ensures Tends(sr, d)
  {
    var du := df * r0;
    TendsProduct(sf, df, r, r0, u, du);
    TendsScale(u, du, -r0, w, d);
    TendsLocal(w, sr, d, delta);
  }

  lemma ReciprocalSlopes(f: Curve, r: Curve, u: Curve, w: Curve, delta: real)
    requires f(0.0) != 0.0 && NearWithin(f, f(0.0), Abs(f(0.0)) / 2.0, delta)
    requires forall h: Arg :: f(h) != 0.0 ==> r(h) * f(h) == 1.0
    requires u == Times(Slope(f), r) && w == Scaled(-r(0.0), u)
    ensures forall h: Arg :: h != 0.0 && -delta < h as real < delta ==> Slope(r)(h) == w(h)
  {
    forall h: Arg | h != 0.0 && -delta < h as real < delta ensures Slope(r)(h) == w(h) {
      assert Near(f(h), f(0.0), Abs(f(0.0)) / 2.0);
      ReciprocalSlopeAt(f, r, h, w(h));
    }
  }

  lemma ReciprocalSlopeAt(f: Curve, r: Curve, h: Arg, s: real)
    requires h != 0.0 && r(0.0) * f(0.0) == 1.0 && r(h) * f(h) == 1.0
    requires s == -r(0.0) * (Slope(f)(h) * r(h))
    ensures Slope(r)(h) == s
  {
    SlopeTimes(f, h);
    ReciprocalSlope(f(0.0), f(h), r(0.0), r(h), Slope(f)(h), h as real);
    SlopeIs(r, h, s);
  }

  lemma ReciprocalSlope(f0: real, f1: real, r0: real, r1: real, s: real, h: real)
    requires r0 * f0 == 1.0 && r1 * f1 == 1.0 && s * h == f1 - f0
    ensures (-r0 * (s * r1)) * h == r1 - r0
  {
    assert (-r0 * (s * r1)) * h == -r0 * r1 * (s * h);
    assert -r0 * r1 * (f1 - f0) == -r0 * (r1 * f1) + r1 * (r0 * f0);
  }
}
