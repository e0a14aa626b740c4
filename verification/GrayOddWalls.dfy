/** Walls across the y axis with an odd number of azimuths: unless the slices are finer than the
    tolerance of the mirror test, no slice passes it and the wall returns nothing. */
module GrayOddWalls {
  import opened Calculus
  import opened BoxMesh
  import opened AngularQuadrature
  import opened SphereSums
  import opened GraySolver
  import opened GrayRange
  import opened GrayMirrors
  import GrayQuadrature

  // ---------------------------------------------------------------------------------------
  // Sines at multiples of a step

  lemma SineOpens(t: Trig, a: real)
    requires IsTrig(t) && 0.0 <= a <= t.pi
    ensures t.Sin(a) >= 0.0
  {}

  lemma CosineOpens(t: Trig, a: real)
    requires IsTrig(t) && 0.0 <= a <= t.pi / 2.0
    ensures t.Cos(a) >= 0.0
  {
    assert AdditionLaws(t, t.pi / 2.0, a);
    SineOpens(t, t.pi / 2.0 - a);
  }

  /** Up to a quarter turn. */
  lemma EarlySine(t: Trig, y: real, a: real, b: real)
    requires IsTrig(t) && a + b <= t.pi / 2.0 && a - b == y && b >= 0.0 && 0.0 < y && a <= t.pi / 2.0
    ensures t.Sin(a + b) >= t.Sin(y)
  {
    CosineOpens(t, a);
    SineOpens(t, b);
    MidpointProducts(t, a, b);
    NonNegative(t.Cos(a), t.Sin(b));
  }

  lemma Mirrored1(t: Trig, a: real)
    requires IsTrig(t)
    ensures t.Sin(t.pi - a) == t.Sin(a) && t.Sin(-a) == -t.Sin(a)
  {
    assert AdditionLaws(t, t.pi, a);
    assert AdditionLaws(t, 0.0, a);
  }

  function Steps(k: int, y: real): real { k as real * y }

  lemma StepsAdd(a: int, b: int, y: real)
    ensures Steps(a + b, y) == Steps(a, y) + Steps(b, y) && Steps(a - b, y) == Steps(a, y) - Steps(b, y)
    ensures Steps(-a, y) == -Steps(a, y) && Steps(1, y) == y && Steps(2 * a, y) == 2.0 * Steps(a, y)
  {
    var p, q := a as real, b as real;
    assert (p + q) * y == p * y + q * y && (p - q) * y == p * y - q * y;
  }

  lemma StepsOrder(a: int, b: int, y: real)
    requires y > 0.0 && a <= b
    ensures Steps(a, y) <= Steps(b, y) && (a < b ==> Steps(a, y) < Steps(b, y))
  {
    var e := (b - a) as real;
    OrderBy(a as real, b as real, e, y);
  }

  lemma OrderBy(p: real, q: real, e: real, y: real)
    requires q == p + e && e >= 0.0 && y > 0.0
    ensures p * y <= q * y && (e > 0.0 ==> p * y < q * y)
  {
    var d := e * y;
    NonNegative(e, y);
    if e > 0.0 { Positive(e, y); }
    assert q * y == p * y + d;
  }

  lemma StepPositive(y: real, n: nat, pi: real)
    requires n > 0 && Steps(2 * n, y) == pi && pi > 0.0
    ensures y > 0.0
  {
    var m := (2 * n) as real;
    assert m * -y == -(m * y);
    if y < 0.0 { NonNegative(m, -y); }
  }

  /** Among the multiples of a step inside the half circle the first sine is the smallest. */
  lemma SineOfSteps(t: Trig, y: real, n: nat, j: int)
    requires IsTrig(t) && n > 0 && Steps(2 * n, y) == t.pi && 0 < j < 2 * n
    ensures t.Sin(Steps(j, y)) >= t.Sin(y) > 0.0
  {
    StepPositive(y, n, t.pi);
    var i := if j <= n then j else 2 * n - j;
    hide Steps;
    StepsAdd(2 * n, j, y);
    Mirrored1(t, Steps(j, y));
    assert t.Sin(Steps(j, y)) == t.Sin(Steps(i, y));
    StepsAdd(n, 0, y);
    StepsOrder(i, n, y);
    StepsOrder(1, 2 * n, y);
    StepsOrder(1, i, y);
    StepsAdd(i, 1, y);
    EarlySine(t, y, Steps(i + 1, y) / 2.0, Steps(i - 1, y) / 2.0);
  }

  lemma Larger(a: real, s: real)
    requires a >= s >= 0.0 || -a >= s >= 0.0
    ensures a * a >= s * s
  {
    var b := if a >= 0.0 then a else -a;
    NonNegative(b - s, b);
    NonNegative(b - s, s);
    assert b * b - s * s == (b - s) * b + (b - s) * s;
  }

  lemma QuarterLess(t: Trig, y: real, n: nat, i: int)
    requires IsTrig(t) && Steps(2 * n, y) == t.pi
    ensures t.Cos(Steps(2 * i, y)) == t.Sin(Steps(n - 2 * i, y))
  {
    hide Steps;
    assert AdditionLaws(t, t.pi / 2.0, Steps(2 * i, y));
    StepsAdd(n, 2 * i, y);
  }

  lemma HalfTurn(t: Trig, y: real, n: nat, m: int)
    requires IsTrig(t) && Steps(2 * n, y) == t.pi
    ensures t.Cos(Steps(2 * m, y)) == -t.Cos(Steps(2 * (m - n), y))
  {
    hide Steps;
    StepsAdd(2 * m, 2 * n, y);
    assert 2 * (m - n) == 2 * m - 2 * n;
    assert AdditionLaws(t, Steps(2 * m, y), t.pi);
  }

  /** The cosine at even multiples of the step, when an odd number of steps makes a quarter turn. */
  lemma OddCosine(t: Trig, y: real, n: nat, m: nat)
    requires IsTrig(t) && n % 2 == 1 && Steps(2 * n, y) == t.pi && 0 < m < 2 * n
    ensures var c := t.Cos(Steps(2 * m, y)); c * c >= t.Sin(y) * t.Sin(y)
  {
    hide Steps, IsTrig;
    var i: int := if m < n then m else m - n;
    var j: int := n - 2 * i;
    var k := if j > 0 then j else -j;
    QuarterLess(t, y, n, i);
    SineOfSteps(t, y, n, k);
    StepsAdd(k, 0, y);
    Mirrored1(t, Steps(k, y));
    if m >= n { HalfTurn(t, y, n, m); }
    Larger(t.Cos(Steps(2 * m, y)), t.Sin(y));
  }

  // ---------------------------------------------------------------------------------------
  // Angles of the slices

  /** Half of half the azimuthal step, and half the polar step. */
  function AzimuthStep(t: Trig, s: Setup): real
    requires s.phiSlices > 0
  {
    DPhi(t, s) / 4.0
  }

  function PolarStep(t: Trig, s: Setup): real
    requires s.thetaSlices > 0
  {
    DTheta(t, s) / 2.0
  }

  lemma AzimuthSteps(t: Trig, s: Setup, np: nat)
    requires ValidSetup(s) && s.phiZero == 0.0
    ensures Steps(2 * s.phiSlices, AzimuthStep(t, s)) == t.pi
    ensures Phi(t, s, np) == Steps(2 * (2 * np + 1), AzimuthStep(t, s))
  {
    StepsFill(t, s);
    var d := DPhi(t, s);
    PhiAt(t, s, np, d, np as real + 0.5);
    hide DPhi, Phi;
  }

  lemma PolarSteps(t: Trig, s: Setup, nt: nat)
    requires ValidSetup(s) && s.phiZero == 0.0
    ensures s.dim == 3 ==> Steps(2 * s.thetaSlices, PolarStep(t, s)) == t.pi
    ensures Theta(t, s, nt) == Steps(2 * nt + 1, PolarStep(t, s))
  {
    StepsFill(t, s);
    var d := DTheta(t, s);
    ThetaAt(t, s, nt, d, nt as real + 0.5);
    hide DTheta, Theta;
  }

  lemma Pythagoras(t: Trig, a: real)
    requires IsTrig(t)
    ensures t.Sin(a) * t.Sin(a) + t.Cos(a) * t.Cos(a) == 1.0
  {
    assert AdditionLaws(t, a, a);
  }

  /** Differences of the sines and cosines of two azimuths. */
  lemma AzimuthDifference(t: Trig, s: Setup, np: nat, mp: nat) returns (c: real, i: real, d: real)
    requires IsTrig(t) && ValidSetup(s) && s.phiZero == 0.0
    ensures c == t.Cos(Steps(2 * (np + mp + 1), AzimuthStep(t, s))) && c * c + i * i == 1.0
    ensures d == t.Sin(Steps(2 * (mp - np), AzimuthStep(t, s)))
    ensures t.Sin(Phi(t, s, mp)) - t.Sin(Phi(t, s, np)) == 2.0 * (c * d)
    ensures t.Cos(Phi(t, s, mp)) - t.Cos(Phi(t, s, np)) == -2.0 * (i * d)
  {
    var y := AzimuthStep(t, s);
    var a, b := Steps(2 * (np + mp + 1), y), Steps(2 * (mp - np), y);
    AzimuthSteps(t, s, np);
    AzimuthSteps(t, s, mp);
    hide Steps, Phi, AzimuthStep;
    StepsAdd(2 * (np + mp + 1), 2 * (mp - np), y);
    assert 2 * (np + mp + 1) + 2 * (mp - np) == 2 * (2 * mp + 1);
    assert 2 * (np + mp + 1) - 2 * (mp - np) == 2 * (2 * np + 1);
    MidpointProducts(t, a, b);
    Pythagoras(t, a);
    c, i, d := t.Cos(a), t.Sin(a), t.Sin(b);
  }

  /** The sines of two azimuths carry a share of their distance. */
  lemma AzimuthShare(t: Trig, s: Setup, np: nat, mp: nat, x: real, z: real, r: real)
    requires IsTrig(t) && ValidSetup(s) && s.phiZero == 0.0 && s.phiSlices % 2 == 1
    requires np < s.phiSlices && mp < s.phiSlices && r == t.Sin(AzimuthStep(t, s))
    requires x == t.Sin(Phi(t, s, mp)) - t.Sin(Phi(t, s, np)) && z == t.Cos(Phi(t, s, mp)) - t.Cos(Phi(t, s, np))
    ensures x * x >= r * r * (x * x + z * z)
    ensures np != mp ==> x * x >= 4.0 * (r * r * (r * r))
  {
    var n, y := s.phiSlices, AzimuthStep(t, s);
    AzimuthSteps(t, s, np);
    var c, i, d := AzimuthDifference(t, s, np, mp);
    hide IsTrig, Steps, AzimuthStep, Phi;
    OddCosine(t, y, n, np + mp + 1);
    if np != mp {
      var e := if mp > np then mp - np else np - mp;
      SineOfSteps(t, y, n, 2 * e);
      StepsAdd(2 * e, 0, y);
      Mirrored1(t, Steps(2 * e, y));
      assert 2 * (mp - np) == if mp > np then 2 * e else -(2 * e);
      Larger(d, r);
    }
    Squares(c, i, d, x, z, r, np != mp);
  }

  lemma Squares(c: real, i: real, d: real, x: real, z: real, r: real, apart: bool)
    requires x == 2.0 * (c * d) && z == -2.0 * (i * d) && c * c + i * i == 1.0 && c * c >= r * r
    requires apart ==> d * d >= r * r
    ensures x * x >= r * r * (x * x + z * z)
    ensures apart ==> x * x >= 4.0 * (r * r * (r * r))
  {
    var cc, ii, dd, rr := c * c, i * i, d * d, r * r;
    assert x * x == 4.0 * (cc * dd) by { Square2(c, d); }
    assert z * z == 4.0 * (ii * dd) by { Square2(i, d); }
    assert cc * dd + ii * dd == dd by { Whole(cc, ii, dd); }
    NonNegative(cc - rr, dd);
    assert (cc - rr) * dd == cc * dd - rr * dd;
    if apart {
      NonNegative(rr, dd - rr);
      assert rr * (dd - rr) == rr * dd - rr * rr;
    }
  }

  lemma Square2(a: real, b: real)
    ensures 2.0 * (a * b) * (2.0 * (a * b)) == 4.0 * (a * a * (b * b))
    ensures -2.0 * (a * b) * (-2.0 * (a * b)) == 4.0 * (a * a * (b * b))
  {}

  lemma Whole(a: real, b: real, d: real)
    requires a + b == 1.0
    ensures a * d + b * d == d
  {}

  /** In dimension 3 the cosines of different polar angles keep a distance. */
  lemma PolarApart(t: Trig, s: Setup, nt: nat, mt: nat, r: real)
    requires IsTrig(t) && ValidSetup(s) && s.phiZero == 0.0 && s.dim == 3 && r == t.Sin(PolarStep(t, s))
    requires nt < s.thetaSlices && mt < s.thetaSlices
    ensures r > 0.0 && t.Sin(Theta(t, s, nt)) >= r
    ensures nt != mt ==>
      var z := t.Cos(Theta(t, s, nt)) - t.Cos(Theta(t, s, mt)); z * z >= 4.0 * (r * r * (r * r))
  {
    var n, y := s.thetaSlices, PolarStep(t, s);
    PolarSteps(t, s, nt);
    PolarSteps(t, s, mt);
    hide Steps, PolarStep, Theta;
    SineOfSteps(t, y, n, 2 * nt + 1);
    if nt != mt {
      var lo, hi := if nt < mt then nt else mt, if nt < mt then mt else nt;
      var a, b := Steps(lo + hi + 1, y), Steps(hi - lo, y);
      StepsAdd(lo + hi + 1, hi - lo, y);
      assert lo + hi + 1 + (hi - lo) == 2 * hi + 1 && lo + hi + 1 - (hi - lo) == 2 * lo + 1;
      MidpointProducts(t, a, b);
      SineOfSteps(t, y, n, lo + hi + 1);
      SineOfSteps(t, y, n, hi - lo);
      hide IsTrig;
      TwoFactors(t.Sin(a), t.Sin(b), r, t.Cos(Theta(t, s, nt)) - t.Cos(Theta(t, s, mt)));
    }
  }

  lemma TwoFactors(a: real, b: real, r: real, z: real)
    requires a >= r > 0.0 && b >= r && (z == 2.0 * (a * b) || z == -2.0 * (a * b))
    ensures z * z >= 4.0 * (r * r * (r * r))
  {
    NonNegative(a - r, b);
    NonNegative(r, b - r);
    assert a * b - r * r == (a - r) * b + r * (b - r);
    Larger(a * b, r * r);
    Square2(a, b);
    Square2(r, r);
    var p, q := a * b, r * r;
    assert z * z == 4.0 * (p * p);
  }

  // ---------------------------------------------------------------------------------------
  // No slice passes the test

  /** The slices are coarser than the tolerance of the test, 1e-5. */
  predicate Coarse(t: Trig, s: Setup)
    requires ValidSetup(s)
  {
    var r := t.Sin(AzimuthStep(t, s));
    if s.dim == 3 then
      var q := t.Sin(PolarStep(t, s));
      4.0 * (q * q * (q * q)) >= 0.0000000001 && 4.0 * (r * r * (r * r)) * (q * q) >= 0.0000000001
    else r * r >= 0.0000000001
  }

  lemma LongX(v: Vec)
    requires v.x * v.x >= 0.0000000001
    ensures !Short(v)
  {
    assert v.y * v.y >= 0.0 && v.z * v.z >= 0.0;
  }

  lemma LongZ(v: Vec)
    requires v.z * v.z >= 0.0000000001
    ensures !Short(v)
  {
    assert v.x * v.x >= 0.0 && v.y * v.y >= 0.0;
  }

  /** In dimension 2 the normalised step between two slices is not along the axis. */
  lemma StepMisses(size: Vec -> real, step: Vec, up: bool, k: real, x: real, z: real, rr: real)
    requires IsLength(size) && step == Vec(k * x, k * z, 0.0) && size(step) != 0.0
    requires x * x >= rr * (x * x + z * z) && rr >= 0.0000000001
    ensures !Short(Difference(Stretched(1.0 / size(step), step), Unit(Y, up)).(z := 0.0))
  {
    var l := size(step);
    var i := 1.0 / l;
    assert l * l == Inner(step, step);
    ShareOfLength(k, x, z, rr, l, i);
    LongX(Difference(Stretched(i, step), Unit(Y, up)).(z := 0.0));
  }

  lemma ShareOfLength(k: real, x: real, z: real, rr: real, l: real, i: real)
    requires l * l == k * x * (k * x) + k * z * (k * z) && i * l == 1.0
    requires x * x >= rr * (x * x + z * z)
    ensures i * (k * x) * (i * (k * x)) >= rr
  {
    var xx, zz, kk, ii := x * x, z * z, k * k, i * i;
    NonNegative(kk, xx - rr * (xx + zz));
    Distribute3(kk, xx, zz, rr);
    Square3(k, x);
    Square3(k, z);
    var ll, px := l * l, kk * xx;
    assert px >= rr * ll;
    NonNegative(ii, px - rr * ll);
    OneOver(i, l, ii, ll);
    Scale3(ii, px, rr, ll);
    Square3(i, k * x);
  }

  lemma Distribute3(kk: real, xx: real, zz: real, rr: real)
    ensures kk * (xx - rr * (xx + zz)) == kk * xx - rr * (kk * xx + kk * zz)
  {}

  lemma Square3(k: real, x: real)
    ensures k * x * (k * x) == k * k * (x * x)
  {}

  lemma OneOver(i: real, l: real, ii: real, ll: real)
    requires i * l == 1.0 && ii == i * i && ll == l * l
    ensures ii * ll == 1.0
  {
    assert ii * ll == (i * l) * (i * l);
  }

  lemma Scale3(ii: real, px: real, rr: real, ll: real)
    requires ii * ll == 1.0
    ensures ii * (px - rr * ll) == ii * px - rr
  {}

  /** Two different slices fail the test of dimension 2. */
  lemma Fails2(t: Trig, s: Setup, size: Vec -> real, np: nat, nt: nat, mp: nat, mt: nat, up: bool)
    requires IsTrig(t) && IsLength(size) && ValidSetup(s) && s.dim == 2 && s.phiZero == 0.0
    requires s.phiSlices % 2 == 1 && Coarse(t, s) && np < s.phiSlices && mp < s.phiSlices
    requires Theta(t, s, nt) == Theta(t, s, mt)
    ensures var step := Difference(Middle(t, s, mp, mt), Middle(t, s, np, nt));
      size(step) == 0.0 || !Short(Difference(Stretched(1.0 / size(step), step), Unit(Y, up)).(z := 0.0))
  {
    hide IsTrig, IsLength, Theta, Phi, AzimuthStep, Short, Middle, Stretched, Difference;
    var k, r := t.Sin(Theta(t, s, nt)), t.Sin(AzimuthStep(t, s));
    var x, z := t.Sin(Phi(t, s, mp)) - t.Sin(Phi(t, s, np)), t.Cos(Phi(t, s, mp)) - t.Cos(Phi(t, s, np));
    AzimuthShare(t, s, np, mp, x, z, r);
    var step := Difference(Middle(t, s, mp, mt), Middle(t, s, np, nt));
    StepOf(t, s, np, nt, mp, mt, k, x, z);
    if size(step) != 0.0 { StepMisses(size, step, up, k, x, z, r * r); }
  }

  lemma StepOf(t: Trig, s: Setup, np: nat, nt: nat, mp: nat, mt: nat, k: real, x: real, z: real)
    requires ValidSetup(s) && Theta(t, s, nt) == Theta(t, s, mt) && k == t.Sin(Theta(t, s, nt))
    requires x == t.Sin(Phi(t, s, mp)) - t.Sin(Phi(t, s, np)) && z == t.Cos(Phi(t, s, mp)) - t.Cos(Phi(t, s, np))
    ensures Difference(Middle(t, s, mp, mt), Middle(t, s, np, nt)) == Vec(k * x, k * z, 0.0)
  {
    hide Theta, Phi;
  }

  /** And of dimension 3: the wall changes neither the x nor the z component. */
  lemma Fails3(t: Trig, s: Setup, np: nat, nt: nat, mp: nat, mt: nat, up: bool)
    requires IsTrig(t) && ValidSetup(s) && s.dim == 3 && s.phiZero == 0.0 && s.phiSlices % 2 == 1 && Coarse(t, s)
    requires np < s.phiSlices && mp < s.phiSlices && nt < s.thetaSlices && mt < s.thetaSlices
    requires np != mp || nt != mt
    ensures !Short(Difference(Middle(t, s, np, nt), Image(Middle(t, s, mp, mt), Unit(Y, up))))
  {
    hide IsTrig, Theta, Phi, AzimuthStep, PolarStep, Short;
    var v := Difference(Middle(t, s, np, nt), Image(Middle(t, s, mp, mt), Unit(Y, up)));
    var r, q := t.Sin(AzimuthStep(t, s)), t.Sin(PolarStep(t, s));
    var c := t.Cos(Theta(t, s, nt)) - t.Cos(Theta(t, s, mt));
    assert v.z == c;
    PolarApart(t, s, nt, mt, q);
    if nt != mt {
      hide Image, Middle, Difference;
      LongZ(v);
    } else {
      var k := t.Sin(Theta(t, s, nt));
      var x, z := t.Sin(Phi(t, s, mp)) - t.Sin(Phi(t, s, np)), t.Cos(Phi(t, s, mp)) - t.Cos(Phi(t, s, np));
      var e := k * x;
      assert v.x == -e;
      hide Image, Middle, Difference;
      AzimuthShare(t, s, np, mp, x, z, r);
      LongProduct(k, q, x, 4.0 * (r * r * (r * r)));
      assert v.x * v.x == e * e;
      LongX(v);
    }
  }

  lemma LongProduct(k: real, q: real, x: real, w: real)
    requires k >= q > 0.0 && x * x >= w >= 0.0
    ensures k * x * (k * x) >= w * (q * q)
  {
    Larger(k, q);
    var kk, qq, xx := k * k, q * q, x * x;
    NonNegative(kk - qq, xx);
    NonNegative(qq, xx - w);
    assert (kk - qq) * xx + qq * (xx - w) == kk * xx - w * qq;
    Square3(k, x);
  }

  /** At a wall across the y axis no slice is the mirror image of another, if the number of azimuths is
      odd and the slices are coarse. */
  lemma NoMirror(t: Trig, s: Setup, dOmega: seq<real>, dir: seq<Vec>, directions: seq<Vec>, theta: seq<real>,
                 size: Vec -> real, up: bool, now: nat, k: nat)
    requires IsTrig(t) && IsLength(size) && ValidSetup(s) && s.phiZero == 0.0 && s.phiSlices % 2 == 1 && Coarse(t, s)
    requires Filled(t, s, dOmega, dir, directions, Slices(s)) && PolarAngles(t, s, theta)
    requires now < Slices(s) && k < Slices(s)
    ensures !MirrorTest(s.dim, size, theta, dir, Unit(Y, up), now, k)
  {
    var np, nt := GrayQuadrature.SliceOf(s, now);
    var mp, mt := GrayQuadrature.SliceOf(s, k);
    assert dir[now] == Middle(t, s, np, nt) && dir[k] == Middle(t, s, mp, mt);
    if s.dim == 2 && theta[k] == theta[now] {
      SameAngle(Theta(t, s, mt), Theta(t, s, nt), t.pi);
      Fails2(t, s, size, np, nt, mp, mt, up);
    }
    if s.dim == 3 && k != now { Fails3(t, s, np, nt, mp, mt, up); }
    hide IsTrig, IsLength, Filled, PolarAngles, Middle, Theta, Short, Image, Coarse;
  }

  lemma SameAngle(a: real, b: real, pi: real)
    requires pi > 0.0 && a * 180.0 / pi == b * 180.0 / pi
    ensures a == b
  {
    var u, v := a * 180.0 / pi, b * 180.0 / pi;
    assert u * pi == a * 180.0 && v * pi == b * 180.0;
  }

  /** So such walls return nothing. */
  lemma OddWallsAbsorb(t: Trig, s: Setup, dOmega: seq<real>, dir: seq<Vec>, directions: seq<Vec>, theta: seq<real>,
                       size: Vec -> real, up: bool, now: nat, p: Problem, sd: Stored, cell: nat)
    requires IsTrig(t) && IsLength(size) && ValidSetup(s) && s.phiZero == 0.0 && s.phiSlices % 2 == 1 && Coarse(t, s)
    requires Filled(t, s, dOmega, dir, directions, Slices(s)) && PolarAngles(t, s, theta)
    requires |p.slices| == Slices(s) && now < Slices(s) && ShapedLike(p, sd) && cell < |p.grid.cells|
    ensures !Reflects(p, MirrorOf(s.dim, size, theta, dir, Unit(Y, up)), now)
    ensures Specular(MirrorOf(s.dim, size, theta, dir, Unit(Y, up)), now, sd, cell) == 0.0
  {
    var mirror := MirrorOf(s.dim, size, theta, dir, Unit(Y, up));
    var k := LastMirror(mirror, now, Slices(s));
    if k < Slices(s) { NoMirror(t, s, dOmega, dir, directions, theta, size, up, now, k); }
    hide MirrorTest, IsTrig, IsLength, Filled, PolarAngles, Coarse;
  }
}
