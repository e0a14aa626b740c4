/** The solid angle and the integrated direction of a slice are the exact integrals of the sphere's area and
    of the unit vector over it: in terms of the edges of the slice they vanish on slices without extent,
    and their mixed derivative is the integrand. */
module SliceIntegrals {
  import opened Calculus
  import opened BoxMesh
  import opened AngularQuadrature

  /** x - sin x cos x, twice the integral of the squared sine. */
  function Squared(t: Trig, x: real): real { x - t.Sin(x) * t.Cos(x) }

  function SinSquare(t: Trig, x: real): real { t.Sin(x) * t.Sin(x) }

  /** The vector with polar factors p and q and azimuth factors x, y and k. */
  function Joined(w: real, p: real, q: real, x: real, y: real, k: real): Vec {
    Vec(w * (p / 2.0) * x, w * (p / 2.0) * y, w * (q / 2.0) * k)
  }

  /** Integral of the unit vector over the polar angles a to b and the azimuths c to d. */
  function IntegralOver(t: Trig, w: real, a: real, b: real, c: real, d: real): Vec {
    Joined(w, Squared(t, b) - Squared(t, a), SinSquare(t, b) - SinSquare(t, a),
           t.Cos(c) - t.Cos(d), t.Sin(d) - t.Sin(c), d - c)
  }

  /** Area of the sphere there. */
  function AreaOver(t: Trig, w: real, a: real, b: real, c: real, d: real): real {
    AreaOf(w, t.Cos(a) - t.Cos(b), d - c)
  }

  function AreaOf(w: real, o: real, k: real): real { w * o * k }

  // ---------------------------------------------------------------------------------------
  // The slices

  lemma DoubleAngles(t: Trig, x: real)
    requires IsTrig(t)
    ensures t.Sin(2.0 * x) == 2.0 * (t.Sin(x) * t.Cos(x))
    ensures t.Cos(2.0 * x) == 1.0 - 2.0 * (t.Sin(x) * t.Sin(x))
  {
    assert AdditionLaws(t, x, x);
    assert x + x == 2.0 * x && x - x == 0.0;
  }

  /** The polar factors of the code, in terms of the edges. */
  lemma PolarFactors(t: Trig, theta: real, h: real, a: real, b: real)
    requires IsTrig(t) && a == theta - 0.5 * h && b == theta + 0.5 * h
    ensures h - t.Cos(2.0 * theta) * t.Sin(h) == Squared(t, b) - Squared(t, a)
    ensures t.Sin(2.0 * theta) * t.Sin(h) == SinSquare(t, b) - SinSquare(t, a)
    ensures 2.0 * (t.Sin(theta) * t.Sin(0.5 * h)) == t.Cos(a) - t.Cos(b)
  {
    hide IsTrig;
    MidpointProducts(t, 2.0 * theta, h);
    MidpointProducts(t, theta, 0.5 * h);
    DoubleAngles(t, a);
    DoubleAngles(t, b);
    assert 2.0 * theta - h == 2.0 * a && 2.0 * theta + h == 2.0 * b;
    var x, y := t.Cos(2.0 * theta) * t.Sin(h), t.Sin(2.0 * theta) * t.Sin(h);
    assert 2.0 * x == t.Sin(2.0 * b) - t.Sin(2.0 * a) && 2.0 * y == t.Cos(2.0 * a) - t.Cos(2.0 * b);
  }

  lemma AzimuthFactors(t: Trig, phi: real, h: real, c: real, d: real)
    requires IsTrig(t) && c == phi - 0.5 * h && d == phi + 0.5 * h
    ensures 2.0 * (t.Sin(phi) * t.Sin(0.5 * h)) == t.Cos(c) - t.Cos(d)
    ensures 2.0 * (t.Cos(phi) * t.Sin(0.5 * h)) == t.Sin(d) - t.Sin(c)
  {
    MidpointProducts(t, phi, 0.5 * h);
  }

  lemma Gathered(w: real, s: real, h: real, p: real, e: real)
    requires 2.0 * (s * h) == e
    ensures w * s * h * p == w * (p / 2.0) * e
  {
    var m := s * h;
    assert w * s * h == w * m;
    assert w * m * p == w * (p / 2.0) * (2.0 * m);
  }

  lemma GatheredZ(w: real, h: real, s: real, q: real, e: real)
    requires s * q == e
    ensures w * 0.5 * h * s * q == w * (e / 2.0) * h
  {
    var m := w * 0.5 * h;
    assert m * s * q == m * (s * q);
  }

  /** Solid angle and integrated direction of every computed slice are the integrals over its edges. */
  lemma SliceIsIntegral(t: Trig, s: Setup, np: nat, nt: nat, a: real, b: real, c: real, d: real)
    requires IsTrig(t) && ValidSetup(s)
    requires a == Theta(t, s, nt) - 0.5 * DTheta(t, s) && b == Theta(t, s, nt) + 0.5 * DTheta(t, s)
    requires c == Phi(t, s, np) - 0.5 * DPhi(t, s) && d == Phi(t, s, np) + 0.5 * DPhi(t, s)
    ensures Integrated(t, s, np, nt) == IntegralOver(t, Weight(s), a, b, c, d)
    ensures Omega(t, s, np, nt) == AreaOver(t, Weight(s), a, b, c, d)
  {
    hide Theta, Phi, DTheta, DPhi, Weight, OmegaAt, IntegratedAt, IntegralOver, AreaOver, IsTrig;
    EdgesIntegral(t, Weight(s), Theta(t, s, nt), Phi(t, s, np), DTheta(t, s), DPhi(t, s), a, b, c, d);
  }

  lemma EdgesIntegral(t: Trig, w: real, theta: real, phi: real, h: real, k: real, a: real, b: real, c: real, d: real)
    requires IsTrig(t) && a == theta - 0.5 * h && b == theta + 0.5 * h && c == phi - 0.5 * k && d == phi + 0.5 * k
    ensures IntegratedAt(t, w, theta, phi, h, k) == IntegralOver(t, w, a, b, c, d)
    ensures OmegaAt(t, w, theta, h, k) == AreaOver(t, w, a, b, c, d)
  {
    hide IntegratedAt, OmegaAt, IsTrig, Squared, SinSquare, Joined, AreaOf;
    PolarFactors(t, theta, h, a, b);
    AzimuthFactors(t, phi, k, c, d);
    assert d - c == k;
    FromFactors(t, w, theta, phi, h, k, Squared(t, b) - Squared(t, a), SinSquare(t, b) - SinSquare(t, a),
                t.Cos(a) - t.Cos(b), t.Cos(c) - t.Cos(d), t.Sin(d) - t.Sin(c));
  }

  lemma FromFactors(t: Trig, w: real, theta: real, phi: real, h: real, k: real, p: real, q: real, o: real, x: real,
                    y: real)
    requires h - t.Cos(2.0 * theta) * t.Sin(h) == p && t.Sin(2.0 * theta) * t.Sin(h) == q
    requires 2.0 * (t.Sin(theta) * t.Sin(0.5 * h)) == o
    requires 2.0 * (t.Sin(phi) * t.Sin(0.5 * k)) == x && 2.0 * (t.Cos(phi) * t.Sin(0.5 * k)) == y
    ensures IntegratedAt(t, w, theta, phi, h, k) == Joined(w, p, q, x, y, k)
    ensures OmegaAt(t, w, theta, h, k) == AreaOf(w, o, k)
  {
    Gathered(w, t.Sin(phi), t.Sin(0.5 * k), p, x);
    Gathered(w, t.Cos(phi), t.Sin(0.5 * k), p, y);
    GatheredZ(w, k, t.Sin(2.0 * theta), t.Sin(h), q);
    GatheredOmega(w, t.Sin(theta), t.Sin(0.5 * h), k, o);
  }

  lemma GatheredOmega(w: real, s: real, q: real, h: real, e: real)
    requires 2.0 * (s * q) == e
    ensures w * 2.0 * s * q * h == w * e * h
  {
    assert w * 2.0 * s * q == w * (2.0 * (s * q));
  }

  /** Without offset the slices fill the polar angles from 0 to pi, or to the equator, and the azimuths of a full
      turn, each beginning where the one before ends. */
  lemma SlicesAdjoin(t: Trig, s: Setup, np: nat, nt: nat)
    requires ValidSetup(s) && s.phiZero == 0.0 && np < s.phiSlices && nt < s.thetaSlices
    ensures Theta(t, s, 0) - 0.5 * DTheta(t, s) == 0.0 && Phi(t, s, 0) - 0.5 * DPhi(t, s) == 0.0
    ensures Theta(t, s, nt) + 0.5 * DTheta(t, s) == Theta(t, s, nt + 1) - 0.5 * DTheta(t, s)
    ensures Phi(t, s, np) + 0.5 * DPhi(t, s) == Phi(t, s, np + 1) - 0.5 * DPhi(t, s)
    ensures Theta(t, s, s.thetaSlices - 1) + 0.5 * DTheta(t, s) == if s.dim == 3 then t.pi else t.pi / 2.0
    ensures Phi(t, s, s.phiSlices - 1) + 0.5 * DPhi(t, s) == 2.0 * t.pi
  {
    var n, m := s.thetaSlices as real, s.phiSlices as real;
    LastEdge(MaxTheta(t, s), n, DTheta(t, s), (s.thetaSlices - 1) as real);
    LastEdge(t.pi * 2.0, m, DPhi(t, s), (s.phiSlices - 1) as real);
  }

  lemma LastEdge(total: real, n: real, d: real, k: real)
    requires n > 0.0 && d == total / n && k == n - 1.0
    ensures d * 0.5 + d * k + 0.5 * d == total
  {
    assert d * n == total;
  }

  /** The middle direction is a unit vector. */
  lemma MiddleIsUnit(t: Trig, s: Setup, np: nat, nt: nat)
    requires IsTrig(t) && ValidSetup(s)
    ensures Inner(Middle(t, s, np, nt), Middle(t, s, np, nt)) == 1.0
  {
    var theta, phi := Theta(t, s, nt), Phi(t, s, np);
    CircleLaw(t, theta);
    CircleLaw(t, phi);
    hide IsTrig, Theta, Phi;
    UnitLength(t.Sin(theta), t.Cos(theta), t.Sin(phi), t.Cos(phi));
  }

  lemma UnitLength(a: real, b: real, x: real, y: real)
    requires a * a + b * b == 1.0 && x * x + y * y == 1.0
    ensures a * x * (a * x) + a * y * (a * y) + b * b == 1.0
  {
    assert a * x * (a * x) == a * a * (x * x) && a * y * (a * y) == a * a * (y * y);
    assert a * a * (x * x) + a * a * (y * y) == a * a * (x * x + y * y);
  }

  // ---------------------------------------------------------------------------------------
  // Integrals of what

  function SinFrom(t: Trig, x: real): (f: Curve)
    ensures forall h: Arg {:trigger f(h)} :: f(h) == t.Sin(x + h as real)
  {
    (h: Arg) => t.Sin(x + h as real)
  }

  function CosFrom(t: Trig, x: real): (f: Curve)
    ensures forall h: Arg {:trigger f(h)} :: f(h) == t.Cos(x + h as real)
  {
    (h: Arg) => t.Cos(x + h as real)
  }

  ghost predicate SmoothAt(t: Trig, x: real) {
    HasDeriv(SinFrom(t, x), t.Cos(x)) && HasDeriv(CosFrom(t, x), -t.Sin(x))
  }

  /** Sine and cosine with their derivatives. */
  ghost predicate IsSmooth(t: Trig) {
    IsTrig(t) && forall x: real :: SmoothAt(t, x)
  }

  lemma CircleLaw(t: Trig, x: real)
    requires IsTrig(t)
    ensures t.Sin(x) * t.Sin(x) + t.Cos(x) * t.Cos(x) == 1.0
  {
    assert AdditionLaws(t, x, x);
    assert x - x == 0.0;
  }

  function SquaredFrom(t: Trig, x: real): (f: Curve)
    ensures forall h: Arg {:trigger f(h)} :: f(h) == Squared(t, x + h as real)
  {
    (h: Arg) => Squared(t, x + h as real)
  }

  function TwiceSquare(t: Trig, x: real): real { 2.0 * (t.Sin(x) * t.Sin(x)) }

  function TwiceProduct(t: Trig, x: real): real { 2.0 * (t.Sin(x) * t.Cos(x)) }

  /** Twice the squared sine is the derivative. */
  lemma SquaredDerivative(t: Trig, x: real)
    requires IsSmooth(t)
    ensures HasDeriv(SquaredFrom(t, x), TwiceSquare(t, x))
  {
    hide HasDeriv, IsTrig;
    assert SmoothAt(t, x);
    CircleLaw(t, x);
    hide IsSmooth;
    var s, c, f, g := t.Sin(x), t.Cos(x), SinFrom(t, x), CosFrom(t, x);
    StartOf(t, x);
    var id: Curve := (h: Arg) => x + h as real;
    forall h: Arg ensures id(h) == x + h as real * 1.0 {}
    DerivAffine(id, x, 1.0);
    var p := Times(f, g);
    var dp, d := c * c - s * s, TwiceSquare(t, x);
    assert dp == c * g(0.0) + f(0.0) * -s;
    DerivProduct(f, c, g, -s, p, dp);
    assert d == 1.0 - dp;
    DerivDiff(id, 1.0, p, dp, SquaredFrom(t, x), d);
  }

  lemma StartOf(t: Trig, x: real)
    ensures SinFrom(t, x)(0.0) == t.Sin(x) && CosFrom(t, x)(0.0) == t.Cos(x)
  {
    assert x + 0.0 == x;
  }

  function SinSquareFrom(t: Trig, x: real): (f: Curve)
    ensures forall h: Arg {:trigger f(h)} :: f(h) == SinSquare(t, x + h as real)
  {
    (h: Arg) => SinSquare(t, x + h as real)
  }

  lemma SinSquareDerivative(t: Trig, x: real)
    requires IsSmooth(t)
    ensures HasDeriv(SinSquareFrom(t, x), TwiceProduct(t, x))
  {
    hide HasDeriv, IsTrig;
    assert SmoothAt(t, x);
    hide IsSmooth;
    var s, c, f := t.Sin(x), t.Cos(x), SinFrom(t, x);
    StartOf(t, x);
    var d := TwiceProduct(t, x);
    assert d == c * f(0.0) + f(0.0) * c;
    DerivProduct(f, c, f, c, SinSquareFrom(t, x), d);
  }

  lemma LinearDerivative(f: Curve, df: real, k: real, e: real, g: Curve, d: real)
    requires HasDeriv(f, df) && d == k * df && forall h: Arg :: g(h) == k * f(h) + e
    ensures HasDeriv(g, d)
  {
    hide HasDeriv;
    var p, c := Scaled(k, f), Constant(e);
    DerivScale(f, df, k, p, d);
    DerivConst(c, e);
    DerivSum(p, d, c, 0.0, g, d);
  }

  /** Integral of the unit vector along the circle of latitude b from azimuth c to d, without the factor sin b of
      the sphere's area. */
  function Ring(t: Trig, b: real, c: real, d: real): Vec {
    Vec(t.Sin(b) * (t.Cos(c) - t.Cos(d)), t.Sin(b) * (t.Sin(d) - t.Sin(c)), t.Cos(b) * (d - c))
  }

  function IntegralFrom(t: Trig, w: real, a: real, b: real, c: real, d: real, axis: Axis): (f: Curve)
    ensures forall h: Arg {:trigger f(h)} :: f(h) == Component(IntegralOver(t, w, a, b + h as real, c, d), axis)
  {
    (h: Arg) => Component(IntegralOver(t, w, a, b + h as real, c, d), axis)
  }

  function RingFrom(t: Trig, b: real, c: real, d: real, axis: Axis): (f: Curve)
    ensures forall h: Arg {:trigger f(h)} :: f(h) == Component(Ring(t, b, c, d + h as real), axis)
  {
    (h: Arg) => Component(Ring(t, b, c, d + h as real), axis)
  }

  function AreaFrom(t: Trig, w: real, a: real, b: real, c: real, d: real): (f: Curve)
    ensures forall h: Arg {:trigger f(h)} :: f(h) == AreaOver(t, w, a, b + h as real, c, d)
  {
    (h: Arg) => AreaOver(t, w, a, b + h as real, c, d)
  }

  /** Weight and area factor times the ring. */
  function RingShare(t: Trig, w: real, b: real, c: real, d: real, axis: Axis): real {
    w * t.Sin(b) * Component(Ring(t, b, c, d), axis)
  }

  lemma HalfFactor(w: real, p: real, p0: real, x: real, k: real, e: real)
    requires k == w * x / 2.0 && e == -(k * p0)
    ensures w * ((p - p0) / 2.0) * x == k * p + e
  {
    assert w * ((p - p0) / 2.0) * x == (w * x / 2.0) * (p - p0);
    assert k * (p - p0) == k * p - k * p0;
  }

  lemma RingTerms(w: real, s: real, x: real, k: real)
    requires k == w * x / 2.0
    ensures k * (2.0 * (s * s)) == w * s * (s * x)
  {
    assert k * 2.0 == w * x;
    assert w * x * (s * s) == w * s * (s * x);
  }

  lemma RingTermZ(w: real, s: real, c: real, x: real, k: real)
    requires k == w * x / 2.0
    ensures k * (2.0 * (s * c)) == w * s * (c * x)
  {
    assert k * 2.0 == w * x;
    assert w * x * (s * c) == w * s * (c * x);
  }

  /** The integral grows, in its upper polar edge, by the ring there. */
  lemma IntegralGrows(t: Trig, w: real, a: real, b: real, c: real, d: real, axis: Axis)
    requires IsSmooth(t)
    ensures HasDeriv(IntegralFrom(t, w, a, b, c, d, axis), RingShare(t, w, b, c, d, axis))
    ensures IntegralOver(t, w, a, a, c, d) == Vec(0.0, 0.0, 0.0)
  {
    SquaredDerivative(t, b);
    SinSquareDerivative(t, b);
    hide HasDeriv, IsSmooth, Squared, SinSquare;
    match axis
    case X => HorizontalGrows(t, w, a, b, c, d, X, t.Cos(c) - t.Cos(d));
    case Y => HorizontalGrows(t, w, a, b, c, d, Y, t.Sin(d) - t.Sin(c));
    case Z => VerticalGrows(t, w, a, b, c, d);
  }

  lemma HorizontalGrows(t: Trig, w: real, a: real, b: real, c: real, d: real, axis: Axis, x: real)
    requires HasDeriv(SquaredFrom(t, b), TwiceSquare(t, b))
    requires (axis == X && x == t.Cos(c) - t.Cos(d)) || (axis == Y && x == t.Sin(d) - t.Sin(c))
    ensures HasDeriv(IntegralFrom(t, w, a, b, c, d, axis), RingShare(t, w, b, c, d, axis))
  {
    hide HasDeriv, Squared;
    var k := w * x / 2.0;
    var e, f, g := -(k * Squared(t, a)), SquaredFrom(t, b), IntegralFrom(t, w, a, b, c, d, axis);
    forall h: Arg ensures g(h) == k * f(h) + e { HalfFactor(w, Squared(t, b + h as real), Squared(t, a), x, k, e); }
    var df, dg := TwiceSquare(t, b), RingShare(t, w, b, c, d, axis);
    RingTerms(w, t.Sin(b), x, k);
    assert dg == k * df;
    LinearDerivative(f, df, k, e, g, dg);
  }

  lemma VerticalGrows(t: Trig, w: real, a: real, b: real, c: real, d: real)
    requires HasDeriv(SinSquareFrom(t, b), TwiceProduct(t, b))
    ensures HasDeriv(IntegralFrom(t, w, a, b, c, d, Z), RingShare(t, w, b, c, d, Z))
  {
    hide HasDeriv, SinSquare;
    var x := d - c;
    var k := w * x / 2.0;
    var e, f, g := -(k * SinSquare(t, a)), SinSquareFrom(t, b), IntegralFrom(t, w, a, b, c, d, Z);
    forall h: Arg ensures g(h) == k * f(h) + e { HalfFactor(w, SinSquare(t, b + h as real), SinSquare(t, a), x, k, e); }
    var df, dg := TwiceProduct(t, b), RingShare(t, w, b, c, d, Z);
    RingTermZ(w, t.Sin(b), t.Cos(b), x, k);
    assert dg == k * df;
    LinearDerivative(f, df, k, e, g, dg);
  }

  /** And the ring grows, in its upper azimuth, by the unit vector there. */
  lemma RingGrows(t: Trig, b: real, c: real, d: real, axis: Axis)
    requires IsSmooth(t)
    ensures HasDeriv(RingFrom(t, b, c, d, axis), Component(MiddleAt(t, b, d), axis))
    ensures Ring(t, b, c, c) == Vec(0.0, 0.0, 0.0)
  {
    assert SmoothAt(t, d);
    hide HasDeriv, IsSmooth, IsTrig, RingFrom;
    match axis
    case X => RingGrowsX(t, b, c, d);
    case Y => RingGrowsY(t, b, c, d);
    case Z => RingGrowsZ(t, b, c, d);
  }

  lemma RingGrowsX(t: Trig, b: real, c: real, d: real)
    requires HasDeriv(CosFrom(t, d), -t.Sin(d))
    ensures HasDeriv(RingFrom(t, b, c, d, X), Component(MiddleAt(t, b, d), X))
  {
    hide HasDeriv;
    var s, g, dg := t.Sin(b), RingFrom(t, b, c, d, X), Component(MiddleAt(t, b, d), X);
    var e, k := s * t.Cos(c), -s;
    forall h: Arg ensures g(h) == k * CosFrom(t, d)(h) + e { Difference(s, t.Cos(c), t.Cos(d + h as real)); }
    NegatedTwice(s, t.Sin(d), k);
    LinearDerivative(CosFrom(t, d), -t.Sin(d), k, e, g, dg);
  }

  lemma NegatedTwice(s: real, p: real, k: real)
    requires k == -s
    ensures s * p == k * -p
  {}

  lemma RingGrowsY(t: Trig, b: real, c: real, d: real)
    requires HasDeriv(SinFrom(t, d), t.Cos(d))
    ensures HasDeriv(RingFrom(t, b, c, d, Y), Component(MiddleAt(t, b, d), Y))
  {
    hide HasDeriv;
    var s, g, dg := t.Sin(b), RingFrom(t, b, c, d, Y), Component(MiddleAt(t, b, d), Y);
    var e := -(s * t.Sin(c));
    forall h: Arg ensures g(h) == s * SinFrom(t, d)(h) + e { Difference(s, t.Sin(d + h as real), t.Sin(c)); }
    LinearDerivative(SinFrom(t, d), t.Cos(d), s, e, g, dg);
  }

  lemma RingGrowsZ(t: Trig, b: real, c: real, d: real)
    ensures HasDeriv(RingFrom(t, b, c, d, Z), Component(MiddleAt(t, b, d), Z))
  {
    hide HasDeriv;
    var q, g := t.Cos(b), RingFrom(t, b, c, d, Z);
    var e := q * (d - c);
    forall h: Arg ensures g(h) == e + h as real * q { MovedTimes(q, d, c, h as real); }
    DerivAffine(g, e, q);
  }

  lemma MovedTimes(q: real, d: real, c: real, h: real)
    ensures q * (d + h - c) == q * (d - c) + h * q
  {}

  lemma Difference(s: real, p: real, q: real)
    ensures s * (p - q) == s * p - s * q && s * (p - q) == -s * q + s * p
  {}

  /** The same for the solid angle: it grows by the circumference sin b (d - c). */
  lemma AreaGrows(t: Trig, w: real, a: real, b: real, c: real, d: real)
    requires IsSmooth(t)
    ensures HasDeriv(AreaFrom(t, w, a, b, c, d), w * t.Sin(b) * (d - c))
    ensures AreaOver(t, w, a, a, c, d) == 0.0
  {
    assert SmoothAt(t, b);
    hide HasDeriv, IsSmooth, IsTrig;
    var k, x := -(w * (d - c)), d - c;
    var g, e, dg := AreaFrom(t, w, a, b, c, d), w * t.Cos(a) * x, w * t.Sin(b) * (d - c);
    forall h: Arg ensures g(h) == k * CosFrom(t, b)(h) + e { AreaTerms(w, t.Cos(a), t.Cos(b + h as real), x, k, e); }
    SwapThree(w, t.Sin(b), x, k, dg);
    LinearDerivative(CosFrom(t, b), -t.Sin(b), k, e, g, dg);
  }

  lemma AreaTerms(w: real, p: real, q: real, x: real, k: real, e: real)
    requires k == -(w * x) && e == w * p * x
    ensures w * (p - q) * x == k * q + e
  {
    assert w * (p - q) == w * p - w * q;
    assert w * q * x == w * x * q;
  }

  lemma SwapThree(w: real, s: real, x: real, k: real, d: real)
    requires k == -(w * x) && d == w * s * x
    ensures d == k * -s
  {
    assert w * s * x == w * x * s;
  }
}
