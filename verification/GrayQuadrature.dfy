/** The computed slices meet what the solver's bounds ask of its directions. */
module GrayQuadrature {
  import opened Calculus
  import opened Forms
  import opened BoxMesh
  import GraySolver
  import GraySystem
  import opened GrayRange
  import AngularQuadrature
  import opened SphereSums

  function SlicesFrom(dOmega: seq<real>, dir: seq<Vec>, directions: seq<Vec>): (r: seq<GraySystem.Slice>)
    requires |dOmega| == |dir| == |directions|
    ensures |r| == |dOmega|
    ensures forall k :: 0 <= k < |r| ==> r[k] == GraySystem.Slice(dir[k], directions[k], dOmega[k])
  {
    seq(|dOmega|, k requires 0 <= k < |dOmega| => GraySystem.Slice(dir[k], directions[k], dOmega[k]))
  }

  // ---------------------------------------------------------------------------------------
  // Every position of the list is a slice

  lemma SliceOf(s: AngularQuadrature.Setup, k: nat) returns (np: nat, nt: nat)
    requires AngularQuadrature.ValidSetup(s) && k < AngularQuadrature.Slices(s)
    ensures np < s.phiSlices && nt < s.thetaSlices && k == AngularQuadrature.Slice(s, np, nt)
  {
    np, nt := k / s.thetaSlices, k % s.thetaSlices;
    if np >= s.phiSlices { AtLeastRows(np, s.phiSlices, s.thetaSlices); }
  }

  lemma AtLeastRows(a: nat, b: nat, width: nat)
    requires a >= b
    ensures a * width >= b * width
  {}

  lemma SliceIs(t: AngularQuadrature.Trig, s: AngularQuadrature.Setup, dOmega: seq<real>, dir: seq<Vec>,
                directions: seq<Vec>, k: nat) returns (np: nat, nt: nat)
    requires AngularQuadrature.ValidSetup(s)
    requires AngularQuadrature.Filled(t, s, dOmega, dir, directions, AngularQuadrature.Slices(s))
    requires k < AngularQuadrature.Slices(s)
    ensures np < s.phiSlices && nt < s.thetaSlices && k == AngularQuadrature.Slice(s, np, nt)
    ensures |dOmega| == |dir| == |directions| == AngularQuadrature.Slices(s)
    ensures SlicesFrom(dOmega, dir, directions)[k]
      == GraySystem.Slice(AngularQuadrature.Middle(t, s, np, nt), AngularQuadrature.Integrated(t, s, np, nt),
                          AngularQuadrature.Omega(t, s, np, nt))
  {
    hide AngularQuadrature.Middle, AngularQuadrature.Integrated, AngularQuadrature.Omega;
    np, nt := SliceOf(s, k);
  }

  // ---------------------------------------------------------------------------------------
  // Which way a slice crosses a side

  /** Every side is vertical or horizontal. */
  ghost predicate Upright(c: GraySystem.GCell) {
    forall s :: 0 <= s < |c.sides| ==>
      c.sides[s].normal.z == 0.0 || (c.sides[s].normal.x == 0.0 && c.sides[s].normal.y == 0.0)
  }

  /** Angles are measured in radians: the sine stays below its argument. */
  ghost predicate Radians(t: AngularQuadrature.Trig) {
    forall x: real :: x >= 0.0 ==> t.Sin(x) <= x
  }

  lemma CosineBound(t: AngularQuadrature.Trig, x: real)
    requires AngularQuadrature.IsTrig(t)
    ensures -1.0 <= t.Cos(x) <= 1.0
  {
    assert AngularQuadrature.AdditionLaws(t, x, x);
    assert x - x == 0.0;
    Bounded(t.Cos(x), t.Sin(x));
  }

  lemma Bounded(c: real, s: real)
    requires c * c + s * s == 1.0
    ensures -1.0 <= c <= 1.0
  {
    assert s * s >= 0.0;
    if c > 1.0 { Positive(c - 1.0, c + 1.0); }
    if c < -1.0 { Positive(-c - 1.0, -c + 1.0); }
  }

  lemma PolarSign(t: AngularQuadrature.Trig, theta: real, d: real)
    requires AngularQuadrature.IsTrig(t) && Radians(t) && d >= 0.0 && t.Sin(d) >= 0.0
    ensures AngularQuadrature.PolarAt(t, theta, d) >= 0.0
  {
    var c, x := t.Cos(2.0 * theta), t.Sin(d);
    CosineBound(t, 2.0 * theta);
    assert x <= d;
    hide AngularQuadrature.IsTrig, Radians;
    NonNegative(1.0 - c, x);
    assert (1.0 - c) * x == x - c * x;
  }

  /** The scales between the middle of a slice and its integral. */
  lemma HorizontalScale(t: AngularQuadrature.Trig, w: real, theta: real, phi: real, dt: real, dp: real)
    returns (h: real)
    requires w >= 0.0 && t.Sin(0.5 * dp) >= 0.0 && AngularQuadrature.PolarAt(t, theta, dt) >= 0.0
    ensures h >= 0.0
    ensures var i := AngularQuadrature.IntegratedAt(t, w, theta, phi, dt, dp);
      i.x == h * t.Sin(phi) && i.y == h * t.Cos(phi)
  {
    hide AngularQuadrature.PolarAt;
    var sp, q := t.Sin(0.5 * dp), AngularQuadrature.PolarAt(t, theta, dt);
    var k := sp * q;
    NonNegative(sp, q);
    NonNegative(w, k);
    h := w * k;
    Swapped(w, t.Sin(phi), sp, q, k);
    Swapped(w, t.Cos(phi), sp, q, k);
  }

  lemma VerticalScale(t: AngularQuadrature.Trig, w: real, theta: real, phi: real, dt: real, dp: real) returns (v: real)
    requires w >= 0.0 && dp >= 0.0 && t.Sin(theta) >= 0.0 && t.Sin(dt) >= 0.0
    requires t.Sin(2.0 * theta) == 2.0 * (t.Sin(theta) * t.Cos(theta))
    ensures v >= 0.0
    ensures AngularQuadrature.IntegratedAt(t, w, theta, phi, dt, dp).z == v * t.Cos(theta)
  {
    var st, sd := t.Sin(theta), t.Sin(dt);
    var a, b := w * dp, st * sd;
    NonNegative(w, dp);
    NonNegative(st, sd);
    NonNegative(a, b);
    v := a * b;
    Doubled(w, dp, st, t.Cos(theta), sd, a, b);
  }

  lemma DoubleSine(t: AngularQuadrature.Trig, x: real)
    requires AngularQuadrature.IsTrig(t)
    ensures t.Sin(2.0 * x) == 2.0 * (t.Sin(x) * t.Cos(x))
  {
    assert AngularQuadrature.AdditionLaws(t, x, x);
    assert x + x == 2.0 * x;
  }

  lemma Doubled(w: real, dp: real, st: real, ct: real, sd: real, a: real, b: real)
    requires a == w * dp && b == st * sd
    ensures w * 0.5 * dp * (2.0 * (st * ct)) * sd == a * b * ct
  {}

  lemma Swapped(w: real, x: real, sp: real, q: real, k: real)
    requires k == sp * q
    ensures w * x * sp * q == (w * k) * x
  {}

  lemma AnglesInside(t: AngularQuadrature.Trig, s: AngularQuadrature.Setup, nt: nat, theta: real, dt: real, dp: real)
    requires AngularQuadrature.IsTrig(t) && AngularQuadrature.ValidSetup(s) && s.phiZero == 0.0 && nt < s.thetaSlices
    requires theta == AngularQuadrature.Theta(t, s, nt) && dt == AngularQuadrature.DTheta(t, s)
    requires dp == AngularQuadrature.DPhi(t, s)
    ensures dt > 0.0 && dp > 0.0
    ensures t.Sin(theta) > 0.0 && t.Sin(dt) >= 0.0 && t.Sin(0.5 * dp) >= 0.0
  {
    StepsFill(t, s);
    var top := AngularQuadrature.MaxTheta(t, s);
    assert top <= t.pi;
    hide AngularQuadrature.DTheta, AngularQuadrature.DPhi, AngularQuadrature.MaxTheta;
    QuotientPositive(top, s.thetaSlices as real, dt);
    QuotientPositive(2.0 * t.pi, s.phiSlices as real, dp);
    MidpointInside(dt, nt, s.thetaSlices, theta, top);
    AtMost(dt, s.thetaSlices, top);
    AtMost(dp, s.phiSlices, 2.0 * t.pi);
    hide AngularQuadrature.Theta;
    assert 0.0 < dt <= t.pi && 0.0 < 0.5 * dp <= t.pi;
  }

  lemma AtMost(d: real, n: nat, total: real)
    requires d > 0.0 && n > 0 && d * n as real == total
    ensures d <= total
  {
    var k := n as real - 1.0;
    NonNegative(d, k);
    assert d * k == total - d;
  }

  /** A slice and its integral leave or enter a cell through the same upright sides. */
  lemma SameFaces(t: AngularQuadrature.Trig, s: AngularQuadrature.Setup, np: nat, nt: nat, omega: real,
                  c: GraySystem.GCell)
    requires AngularQuadrature.IsTrig(t) && Radians(t) && AngularQuadrature.ValidSetup(s) && s.phiZero == 0.0
    requires np < s.phiSlices && nt < s.thetaSlices && Upright(c)
    ensures GraySystem.SameFace(
      GraySystem.Slice(AngularQuadrature.Middle(t, s, np, nt), AngularQuadrature.Integrated(t, s, np, nt), omega), c)
  {
    var theta, phi := AngularQuadrature.Theta(t, s, nt), AngularQuadrature.Phi(t, s, np);
    var dt, dp, w := AngularQuadrature.DTheta(t, s), AngularQuadrature.DPhi(t, s), AngularQuadrature.Weight(s);
    AnglesInside(t, s, nt, theta, dt, dp);
    PolarSign(t, theta, dt);
    DoubleSine(t, theta);
    hide AngularQuadrature.IsTrig, Radians, AngularQuadrature.DTheta, AngularQuadrature.DPhi, AngularQuadrature.Theta,
         AngularQuadrature.Phi, AngularQuadrature.IntegratedAt, AngularQuadrature.MiddleAt, AngularQuadrature.PolarAt,
         Upright, GraySystem.SameFace;
    FacesOfAngles(t, w, theta, phi, dt, dp, omega, c);
  }

  lemma FacesOfAngles(t: AngularQuadrature.Trig, w: real, theta: real, phi: real, dt: real, dp: real, omega: real,
                      c: GraySystem.GCell)
    requires w >= 0.0 && dp >= 0.0 && t.Sin(theta) > 0.0 && t.Sin(dt) >= 0.0 && t.Sin(0.5 * dp) >= 0.0
    requires t.Sin(2.0 * theta) == 2.0 * (t.Sin(theta) * t.Cos(theta))
    requires AngularQuadrature.PolarAt(t, theta, dt) >= 0.0 && Upright(c)
    ensures GraySystem.SameFace(
      GraySystem.Slice(AngularQuadrature.MiddleAt(t, theta, phi),
                       AngularQuadrature.IntegratedAt(t, w, theta, phi, dt, dp), omega), c)
  {
    hide AngularQuadrature.IntegratedAt, AngularQuadrature.PolarAt, Upright, GraySystem.SameFace;
    var h := HorizontalScale(t, w, theta, phi, dt, dp);
    var v := VerticalScale(t, w, theta, phi, dt, dp);
    SameFaceAt(AngularQuadrature.MiddleAt(t, theta, phi), AngularQuadrature.IntegratedAt(t, w, theta, phi, dt, dp),
               omega, c, t.Sin(phi), t.Cos(phi), t.Sin(theta), h, v);
  }

  lemma SameFaceAt(m: Vec, i: Vec, omega: real, c: GraySystem.GCell, sp: real, cp: real, st: real, h: real, v: real)
    requires st > 0.0 && h >= 0.0 && v >= 0.0 && Upright(c)
    requires m.x == st * sp && m.y == st * cp && i.x == h * sp && i.y == h * cp && i.z == v * m.z
    ensures GraySystem.SameFace(GraySystem.Slice(m, i, omega), c)
  {
    hide Inner;
    forall j | 0 <= j < |c.sides|
      ensures if Inner(m, c.sides[j].normal) < 0.0 then Inner(i, c.sides[j].normal) <= 0.0
              else Inner(i, c.sides[j].normal) >= 0.0
    {
      var n := c.sides[j].normal;
      if n.z == 0.0 {
        var x := sp * n.x + cp * n.y;
        Along(m, n, st, sp, cp, x);
        Along(i, n, h, sp, cp, x);
        Follows(st, h, x);
      } else {
        var x := m.z * n.z;
        Upwards(m, n, 1.0, m.z, x);
        Upwards(i, n, v, m.z, x);
        Follows(1.0, v, x);
      }
    }
  }

  lemma Along(a: Vec, n: Vec, k: real, sp: real, cp: real, x: real)
    requires a.x == k * sp && a.y == k * cp && n.z == 0.0 && x == sp * n.x + cp * n.y
    ensures Inner(a, n) == k * x
  {}

  lemma Upwards(a: Vec, n: Vec, k: real, z: real, x: real)
    requires a.z == k * z && n.x == 0.0 && n.y == 0.0 && x == z * n.z
    ensures Inner(a, n) == k * x
  {}

  lemma Follows(a: real, b: real, x: real)
    requires a > 0.0 && b >= 0.0
    ensures a * x < 0.0 ==> b * x <= 0.0
    ensures a * x >= 0.0 ==> b * x >= 0.0
  {
    if x < 0.0 { Positive(a, -x); NonNegative(b, -x); }
    if x >= 0.0 { NonNegative(a, x); NonNegative(b, x); }
  }

  // ---------------------------------------------------------------------------------------
  // What the bounds ask

  /** Without an angular offset the slices are open, cover the sphere, balance both horizontal axes, in
      three dimensions also the vertical one, and see upright sides from the same face as their
      integrals. */
  lemma ComputedSlicesFit(t: AngularQuadrature.Trig, s: AngularQuadrature.Setup, dOmega: seq<real>, dir: seq<Vec>,
                          directions: seq<Vec>, p: GraySolver.Problem)
    requires AngularQuadrature.IsTrig(t) && AngularQuadrature.ValidSetup(s) && s.phiZero == 0.0
    requires AngularQuadrature.Filled(t, s, dOmega, dir, directions, AngularQuadrature.Slices(s))
    requires p.slices == SlicesFrom(dOmega, dir, directions) && p.total == 4.0 * t.pi
    ensures Covering(p) && Balanced(p, X) && Balanced(p, Y) && (s.dim == 3 ==> Balanced(p, Z))
    ensures forall k :: 0 <= k < |p.slices| ==> p.slices[k].dOmega > 0.0
    ensures Radians(t) ==> forall k, c :: 0 <= k < |p.slices| && 0 <= c < |p.grid.cells| && Upright(p.grid.cells[c]) ==>
              GraySystem.SameFace(p.slices[k], p.grid.cells[c])
  {
    forall k: nat | k < |p.slices| ensures p.slices[k].dOmega > 0.0 {
      var np, nt := SliceIs(t, s, dOmega, dir, directions, k);
      SliceOpens(t, s, np, nt);
    }
    forall k: nat, c: nat | Radians(t) && k < |p.slices| && c < |p.grid.cells| && Upright(p.grid.cells[c])
      ensures GraySystem.SameFace(p.slices[k], p.grid.cells[c])
    {
      var np, nt := SliceIs(t, s, dOmega, dir, directions, k);
      SameFaces(t, s, np, nt, p.slices[k].dOmega, p.grid.cells[c]);
    }
    hide GraySystem.SameFace, Upright, Radians;
    hide AngularQuadrature.IsTrig, AngularQuadrature.Filled, Sum;
    var n := |p.slices|;
    LengthOf(t, s, dOmega, dir, directions);
    SlicesCoverSphere(t, s, dOmega, dir, directions);
    SumEqual(AngleOf(p), OmegaOf(dOmega), n);
    HorizontalCancels(t, s, X, dOmega, dir, directions);
    HorizontalCancels(t, s, Y, dOmega, dir, directions);
    SameWeights(p, dOmega, dir, directions, X);
    SameWeights(p, dOmega, dir, directions, Y);
    if s.dim == 3 {
      VerticalCancels(t, s, dOmega, dir, directions);
      SameWeights(p, dOmega, dir, directions, Z);
    }
  }

  /** The range invariant for computed slices: closed cells with upright sides and harmless boundaries
      are all it asks. */
  lemma ComputedSlicesKeepRange(t: AngularQuadrature.Trig, s: AngularQuadrature.Setup, dOmega: seq<real>, dir: seq<Vec>,
                                directions: seq<Vec>, p: GraySolver.Problem, state: GraySolver.State, n: nat,
                                lo: real, hi: real)
    requires AngularQuadrature.IsTrig(t) && Radians(t) && AngularQuadrature.ValidSetup(s) && s.phiZero == 0.0
    requires AngularQuadrature.Filled(t, s, dOmega, dir, directions, AngularQuadrature.Slices(s))
    requires p.slices == SlicesFrom(dOmega, dir, directions) && p.total == 4.0 * t.pi
    requires GraySolver.ValidProblem(p) && SolvesSystems(p) && StateWithin(p, state, lo, hi)
    requires forall c :: 0 <= c < |p.grid.cells| ==>
      p.grid.cells[c].heat == 0.0 && GraySystem.ClosedCell(p.grid.cells[c]) && Upright(p.grid.cells[c])
    requires forall k: nat, c: nat, j: nat :: k < |p.slices| && InflowAt(p, k, c, j) ==>
      Harmless(p, p.boundaries[p.grid.cells[c].sides[j].boundary], k, lo, hi)
    ensures StateWithin(p, GraySolver.Iterate(p, state, n), lo, hi)
  {
    ComputedSlicesFit(t, s, dOmega, dir, directions, p);
    hide AngularQuadrature.IsTrig, AngularQuadrature.Filled, Radians, SolvesSystems, StateWithin, Harmless, Covering,
         Balanced, GraySystem.ClosedCell, GraySystem.SameFace, Upright;
    assert forall k :: 0 <= k < |p.slices| ==> GraySystem.Regular(p.grid, p.slices[k]);
    hide GraySystem.Regular, GraySolver.ValidProblem;
    assert Contained(p, lo, hi);
    hide Contained;
    IteratesInRange(p, state, n, lo, hi);
  }

  lemma SameWeights(p: GraySolver.Problem, dOmega: seq<real>, dir: seq<Vec>, directions: seq<Vec>, a: Axis)
    requires |dOmega| == |dir| == |directions| && p.slices == SlicesFrom(dOmega, dir, directions)
    ensures Sum(WeightOf(p, a), |p.slices|) == Sum(DirectionOf(directions, a), |p.slices|)
  {
    forall k: nat | k < |p.slices| ensures WeightOf(p, a)(k) == DirectionOf(directions, a)(k) {
      assert p.slices[k].integrated == directions[k];
    }
    SumEqual(WeightOf(p, a), DirectionOf(directions, a), |p.slices|);
  }

  lemma LengthOf(t: AngularQuadrature.Trig, s: AngularQuadrature.Setup, dOmega: seq<real>, dir: seq<Vec>,
                 directions: seq<Vec>)
    requires AngularQuadrature.ValidSetup(s)
    requires AngularQuadrature.Filled(t, s, dOmega, dir, directions, AngularQuadrature.Slices(s))
    ensures |dOmega| == |dir| == |directions| == AngularQuadrature.Slices(s)
  {}

  /** User-given directions all get solid angle one, but the energy is still divided by the full
      sphere: such slices never cover it. */
  lemma CustomSlicesNeverCover(p: GraySolver.Problem, pi: real)
    requires 3.14 < pi < 3.15 && p.total == 4.0 * pi
    requires forall k :: 0 <= k < |p.slices| ==> p.slices[k].dOmega == 1.0
    ensures !Covering(p)
  {
    ConstantSum(AngleOf(p), 1.0, |p.slices|);
    assert |p.slices| <= 12 || |p.slices| >= 13;
  }
}
