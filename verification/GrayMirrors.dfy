/** Specular walls: which slices the solver's test takes for the mirror image of a slice, and where the
    computed slices contain one. */
module GrayMirrors {
  import opened Calculus
  import opened Forms
  import opened BoxMesh
  import opened AngularQuadrature
  import opened SphereSums
  import opened GraySolver
  import opened GrayRange

  function Difference(a: Vec, b: Vec): Vec { Vec(a.x - b.x, a.y - b.y, a.z - b.z) }

  function Stretched(k: real, a: Vec): Vec { Vec(k * a.x, k * a.y, k * a.z) }

  /** The length of a vector is known by its square. */
  ghost predicate IsLength(size: Vec -> real) {
    forall v: Vec :: size(v) >= 0.0 && size(v) * size(v) == Inner(v, v)
  }

  /** Shorter than 1e-5. */
  predicate Short(v: Vec) { Inner(v, v) < 0.0000000001 }

  function Image(d: Vec, n: Vec): Vec { Difference(d, Stretched(2.0 * Abs(Inner(d, n)), n)) }

  /** The test for the mirror image at a wall with outward normal n; theta lists the polar angles. In one
      dimension nothing is tested. */
  predicate MirrorTest(dim: nat, size: Vec -> real, theta: seq<real>, dir: seq<Vec>, n: Vec, now: nat, k: nat) {
    now < |dir| == |theta| && k < |dir| && k != now
    && match dim
       case 3 => Short(Difference(dir[now], Image(dir[k], n)))
       case 2 =>
         var step := Difference(dir[k], dir[now]);
         size(step) != 0.0
         && Short(Difference(Stretched(1.0 / size(step), step), n).(z := 0.0))
         && theta[k] == theta[now]
       case _ => false
  }

  function MirrorOf(dim: nat, size: Vec -> real, theta: seq<real>, dir: seq<Vec>, n: Vec): (nat, nat) -> bool {
    (now: nat, k: nat) => MirrorTest(dim, size, theta, dir, n, now, k)
  }

  /** The unit vector along an axis, in either direction. */
  function Unit(a: Axis, up: bool): Vec {
    var e := if up then 1.0 else -1.0;
    match a
    case X => Vec(e, 0.0, 0.0)
    case Y => Vec(0.0, e, 0.0)
    case Z => Vec(0.0, 0.0, e)
  }

  function Flip(d: Vec, a: Axis): Vec {
    match a
    case X => d.(x := -d.x)
    case Y => d.(y := -d.y)
    case Z => d.(z := -d.z)
  }

  // ---------------------------------------------------------------------------------------
  // The flipped direction passes the test

  lemma FlipPasses3(d: Vec, a: Axis, up: bool)
    requires Inner(d, Unit(a, up)) < 0.0
    ensures Short(Difference(d, Image(Flip(d, a), Unit(a, up)))) && Flip(d, a) != d
  {
    assert Inner(Flip(d, a), Unit(a, up)) == -Inner(d, Unit(a, up));
    assert Image(Flip(d, a), Unit(a, up)) == d;
  }

  lemma FlipPasses2(size: Vec -> real, d: Vec, a: Axis, up: bool)
    requires IsLength(size) && Inner(d, Unit(a, up)) < 0.0
    ensures var step := Difference(Flip(d, a), d);
      size(step) != 0.0 && Difference(Stretched(1.0 / size(step), step), Unit(a, up)) == Vec(0.0, 0.0, 0.0)
  {
    var step, x := Difference(Flip(d, a), d), -2.0 * Component(d, a);
    assert Inner(step, step) == x * x;
    SameLength(size(step), x, if up then 1.0 else -1.0);
  }

  lemma ZeroFactor(a: real, b: real)
    requires a * b == 0.0 && b != 0.0
    ensures a == 0.0
  {}

  lemma SameLength(l: real, x: real, e: real)
    requires l >= 0.0 && l * l == x * x && (e == 1.0 || e == -1.0) && x * e > 0.0
    ensures l != 0.0 && 1.0 / l * x == e && 1.0 / l * 0.0 == 0.0
  {
    var m := x * e;
    assert m * m == x * x;
    var a, b := l - m, l + m;
    assert a * b == 0.0;
    ZeroFactor(a, b);
    var i := 1.0 / l;
    assert i * l == 1.0;
    assert i * x == (i * m) * e;
  }

  // ---------------------------------------------------------------------------------------
  // The flipped slice

  /** Azimuths are counted from the y axis towards the x axis. */
  lemma Azimuths(t: Trig, phi: real, other: real)
    requires IsTrig(t)
    ensures other == 2.0 * t.pi - phi ==> t.Sin(other) == -t.Sin(phi) && t.Cos(other) == t.Cos(phi)
    ensures other == t.pi - phi || other == 3.0 * t.pi - phi ==>
      t.Sin(other) == t.Sin(phi) && t.Cos(other) == -t.Cos(phi)
  {
    assert AdditionLaws(t, 2.0 * t.pi, phi);
    assert AdditionLaws(t, t.pi, phi);
    assert AdditionLaws(t, 2.0 * t.pi, t.pi - phi);
    assert 2.0 * t.pi + (t.pi - phi) == 3.0 * t.pi - phi;
  }

  lemma PhiAt(t: Trig, s: Setup, np: nat, d: real, x: real)
    requires ValidSetup(s) && s.phiZero == 0.0 && d == DPhi(t, s) && x == np as real + 0.5
    ensures Phi(t, s, np) == d * x
  {
    hide DPhi;
  }

  lemma ThetaAt(t: Trig, s: Setup, nt: nat, d: real, x: real)
    requires ValidSetup(s) && s.phiZero == 0.0 && d == DTheta(t, s) && x == nt as real + 0.5
    ensures Theta(t, s, nt) == d * x
  {
    hide DTheta;
  }

  /** Where the mirror image is found. */
  predicate Mirrored(s: Setup, a: Axis) {
    match a
    case X => true
    case Y => s.phiSlices % 2 == 0
    case Z => s.dim == 3
  }

  function Partner(s: Setup, a: Axis, np: nat, nt: nat): (p: (nat, nat))
    requires ValidSetup(s) && Mirrored(s, a) && np < s.phiSlices && nt < s.thetaSlices
    ensures p.0 < s.phiSlices && p.1 < s.thetaSlices
  {
    match a
    case X => (s.phiSlices - 1 - np, nt)
    case Y => (if np < s.phiSlices / 2 then s.phiSlices / 2 - 1 - np else 3 * (s.phiSlices / 2) - 1 - np, nt)
    case Z => (np, s.thetaSlices - 1 - nt)
  }

  lemma Complement(d: real, n: real, k: real, x: real, total: real)
    requires d * n == total && x == n - k
    ensures d * x == total - d * k
  {}

  lemma HalfSteps(d: real, half: real, n: real, pi: real, turn: real, more: real)
    requires 2.0 * half == n && d * n == turn == 2.0 * pi && more == 3.0 * half
    ensures d * half == pi && d * more == 3.0 * pi
  {}

  /** The azimuths of partners are opposite across the axis. */
  lemma PartnerAzimuth(t: Trig, s: Setup, a: Axis, np: nat, nt: nat)
    requires ValidSetup(s) && s.phiZero == 0.0 && Mirrored(s, a) && np < s.phiSlices && nt < s.thetaSlices
    ensures var other := Phi(t, s, Partner(s, a, np, nt).0);
      match a
      case X => other == 2.0 * t.pi - Phi(t, s, np)
      case Y => other == t.pi - Phi(t, s, np) || other == 3.0 * t.pi - Phi(t, s, np)
      case Z => other == Phi(t, s, np)
  {
    var p := Partner(s, a, np, nt);
    StepsFill(t, s);
    var d, n, k, x := DPhi(t, s), s.phiSlices as real, np as real + 0.5, p.0 as real + 0.5;
    var turn := 2.0 * t.pi;
    assert d * n == turn;
    PhiAt(t, s, np, d, k);
    PhiAt(t, s, p.0, d, x);
    hide DPhi, Phi;
    if a == X { Complement(d, n, k, x, turn); }
    if a == Y {
      var half := (s.phiSlices / 2) as real;
      var more := 3.0 * half;
      HalfSteps(d, half, n, t.pi, turn, more);
      if np < s.phiSlices / 2 { Complement(d, half, k, x, t.pi); } else { Complement(d, more, k, x, 3.0 * t.pi); }
    }
  }

  lemma PartnerPolar(t: Trig, s: Setup, np: nat, nt: nat)
    requires ValidSetup(s) && s.phiZero == 0.0 && s.dim == 3 && np < s.phiSlices && nt < s.thetaSlices
    ensures Theta(t, s, Partner(s, Z, np, nt).1) == t.pi - Theta(t, s, nt)
  {
    var p := Partner(s, Z, np, nt);
    StepsFill(t, s);
    var d, n, k, x := DTheta(t, s), s.thetaSlices as real, nt as real + 0.5, p.1 as real + 0.5;
    ThetaAt(t, s, nt, d, k);
    ThetaAt(t, s, p.1, d, x);
    hide DTheta, Theta;
    Complement(d, n, k, x, t.pi);
  }

  lemma PartnerFlips(t: Trig, s: Setup, a: Axis, np: nat, nt: nat)
    requires IsTrig(t) && ValidSetup(s) && s.phiZero == 0.0 && Mirrored(s, a)
    requires np < s.phiSlices && nt < s.thetaSlices
    ensures var p := Partner(s, a, np, nt); Middle(t, s, p.0, p.1) == Flip(Middle(t, s, np, nt), a)
  {
    var p := Partner(s, a, np, nt);
    PartnerAzimuth(t, s, a, np, nt);
    Azimuths(t, Phi(t, s, np), Phi(t, s, p.0));
    if a == Z {
      PartnerPolar(t, s, np, nt);
      Azimuths(t, Theta(t, s, nt), Theta(t, s, p.1));
    }
    hide IsTrig, Phi, Theta;
  }

  // ---------------------------------------------------------------------------------------
  // Walls find the mirrored slice

  /** The polar angles listed for the slices, in degrees. */
  ghost predicate PolarAngles(t: Trig, s: Setup, theta: seq<real>)
    requires ValidSetup(s) && t.pi != 0.0
  {
    && |theta| == Slices(s)
    && forall np: nat, nt: nat {:trigger Slice(s, np, nt)} ::
         (np < s.phiSlices && nt < s.thetaSlices && Slice(s, np, nt) < Slices(s)) ==>
         theta[Slice(s, np, nt)] == Theta(t, s, nt) * 180.0 / t.pi
  }

  /** At a wall across an axis the computed slices contain the mirror image of every incoming slice, for
      any number of slices; across the y axis for an even number of azimuths. */
  lemma MirrorExists(t: Trig, s: Setup, dOmega: seq<real>, dir: seq<Vec>, directions: seq<Vec>, theta: seq<real>,
                     size: Vec -> real, a: Axis, up: bool, np: nat, nt: nat) returns (k: nat)
    requires IsTrig(t) && IsLength(size) && ValidSetup(s) && s.dim >= 2 && s.phiZero == 0.0 && Mirrored(s, a)
    requires Filled(t, s, dOmega, dir, directions, Slices(s)) && PolarAngles(t, s, theta)
    requires np < s.phiSlices && nt < s.thetaSlices && Inner(Middle(t, s, np, nt), Unit(a, up)) < 0.0
    ensures Slice(s, np, nt) < Slices(s) && k < Slices(s)
    ensures MirrorTest(s.dim, size, theta, dir, Unit(a, up), Slice(s, np, nt), k)
  {
    var p := Partner(s, a, np, nt);
    SliceInRange(s, np, nt);
    SliceInRange(s, p.0, p.1);
    k := Slice(s, p.0, p.1);
    var now := Slice(s, np, nt);
    PartnerFlips(t, s, a, np, nt);
    var d := Middle(t, s, np, nt);
    assert dir[now] == d && dir[k] == Flip(d, a);
    assert a != Z ==> theta[k] == theta[now];
    hide IsTrig, Filled, PolarAngles, Middle, Partner, Short, Image;
    FlipPasses3(d, a, up);
    if s.dim == 2 {
      FlipPasses2(size, d, a, up);
      ShortZero();
    }
  }

  lemma ShortZero()
    ensures Short(Vec(0.0, 0.0, 0.0))
  {}

  /** So walls across the axes keep every range of energies. */
  lemma WallsReflect(t: Trig, s: Setup, dOmega: seq<real>, dir: seq<Vec>, directions: seq<Vec>, theta: seq<real>,
                     size: Vec -> real, a: Axis, up: bool, np: nat, nt: nat, p: Problem)
    requires IsTrig(t) && IsLength(size) && ValidSetup(s) && s.dim >= 2 && s.phiZero == 0.0 && Mirrored(s, a)
    requires Filled(t, s, dOmega, dir, directions, Slices(s)) && PolarAngles(t, s, theta) && |p.slices| == Slices(s)
    requires np < s.phiSlices && nt < s.thetaSlices && Inner(Middle(t, s, np, nt), Unit(a, up)) < 0.0
    ensures Reflects(p, MirrorOf(s.dim, size, theta, dir, Unit(a, up)), Slice(s, np, nt))
  {
    var k := MirrorExists(t, s, dOmega, dir, directions, theta, size, a, up, np, nt);
    hide MirrorTest, IsTrig, Filled, PolarAngles, Middle;
    assert MirrorOf(s.dim, size, theta, dir, Unit(a, up))(Slice(s, np, nt), k);
    DifferentSlices(s.dim, size, theta, dir, Unit(a, up), Slice(s, np, nt), k);
  }

  lemma DifferentSlices(dim: nat, size: Vec -> real, theta: seq<real>, dir: seq<Vec>, n: Vec, now: nat, k: nat)
    requires MirrorTest(dim, size, theta, dir, n, now, k)
    ensures k != now
  {}

  /** In one dimension no slice ever passes, and every wall returns nothing. */
  lemma WallsAbsorbInOneDimension(p: Problem, size: Vec -> real, theta: seq<real>, dir: seq<Vec>, n: Vec, now: nat,
                                  sd: Stored, cell: nat)
    requires ShapedLike(p, sd) && cell < |p.grid.cells|
    ensures !Reflects(p, MirrorOf(1, size, theta, dir, n), now)
    ensures Specular(MirrorOf(1, size, theta, dir, n), now, sd, cell) == 0.0
  {}

  /** The image the test compares with keeps the part of a direction along the wall, and always enters. */
  lemma ImageEnters(d: Vec, n: Vec)
    requires Inner(n, n) == 1.0
    ensures Inner(Image(d, n), n) == Inner(d, n) - 2.0 * Abs(Inner(d, n)) <= 0.0
    ensures var m := Image(d, n); Difference(m, d) == Stretched(Inner(Difference(m, d), n), n)
  {
    var k := 2.0 * Abs(Inner(d, n));
    ImageInner(d, n, k);
  }

  lemma ImageInner(d: Vec, n: Vec, k: real)
    requires Inner(n, n) == 1.0
    ensures Inner(Difference(d, Stretched(k, n)), n) == Inner(d, n) - k
    ensures var m := Difference(d, Stretched(k, n)); Difference(m, d) == Stretched(Inner(Difference(m, d), n), n)
  {
    var s := Inner(n, n);
    assert (d.x - k * n.x) * n.x == d.x * n.x - k * (n.x * n.x);
    assert (d.y - k * n.y) * n.y == d.y * n.y - k * (n.y * n.y);
    assert (d.z - k * n.z) * n.z == d.z * n.z - k * (n.z * n.z);
    assert k * (n.x * n.x) + k * (n.y * n.y) + k * (n.z * n.z) == k * s;
    assert (-(k * n.x)) * n.x + (-(k * n.y)) * n.y + (-(k * n.z)) * n.z == -(k * s);
  }
}
