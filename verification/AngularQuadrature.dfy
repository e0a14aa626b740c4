/** The slices of the unit sphere used by the discrete-ordinates solver. Every slice carries its
    exact solid angle and its exactly integrated direction, so the sums telescope. */
module AngularQuadrature {
  import opened Calculus
  import opened Forms
  import opened BoxMesh

  newtype Angle = real

  /** Sine and cosine with the constant pi. */
  datatype Trig = Trig(sine: Angle -> real, cosine: Angle -> real, pi: real)
  {
    function Sin(x: real): real { sine(x as Angle) }
    function Cos(x: real): real { cosine(x as Angle) }
  }

  ghost predicate AdditionLaws(t: Trig, a: real, b: real) {
    && t.Sin(a + b) == t.Sin(a) * t.Cos(b) + t.Cos(a) * t.Sin(b)
    && t.Sin(a - b) == t.Sin(a) * t.Cos(b) - t.Cos(a) * t.Sin(b)
    && t.Cos(a + b) == t.Cos(a) * t.Cos(b) - t.Sin(a) * t.Sin(b)
    && t.Cos(a - b) == t.Cos(a) * t.Cos(b) + t.Sin(a) * t.Sin(b)
  }

  /** The laws used: addition, the values at quarter turns, and the sign on the half circle. */
  ghost predicate IsTrig(t: Trig) {
    && t.pi > 0.0
    && (forall a: real, b: real :: AdditionLaws(t, a, b))
    && t.Sin(0.0) == 0.0 && t.Cos(0.0) == 1.0
    && t.Sin(t.pi / 2.0) == 1.0 && t.Cos(t.pi / 2.0) == 0.0
    && t.Sin(t.pi) == 0.0 && t.Cos(t.pi) == -1.0
    && t.Sin(2.0 * t.pi) == 0.0 && t.Cos(2.0 * t.pi) == 1.0
    && forall x: real :: 0.0 < x < t.pi ==> t.Sin(x) > 0.0
  }

  /** Products of a midpoint and a half step are differences of the end points. */
  lemma MidpointProducts(t: Trig, x: real, h: real)
    requires IsTrig(t)
    ensures 2.0 * (t.Sin(x) * t.Sin(h)) == t.Cos(x - h) - t.Cos(x + h)
    ensures 2.0 * (t.Cos(x) * t.Sin(h)) == t.Sin(x + h) - t.Sin(x - h)
  {
    assert AdditionLaws(t, x, h);
  }

  // ---------------------------------------------------------------------------------------
  // The slices

  /** Dimension (1, 2 or 3), numbers of slices and offset of the angles. */
  datatype Setup = Setup(dim: nat, thetaSlices: nat, phiSlices: nat, phiZero: real)

  ghost predicate ValidSetup(s: Setup) {
    s.dim in {1, 2, 3} && s.thetaSlices > 0 && s.phiSlices > 0
  }

  function Weight(s: Setup): real { if s.dim == 3 then 1.0 else 2.0 }

  function MinTheta(s: Setup): real { s.phiZero }

  function MaxTheta(t: Trig, s: Setup): real {
    (if s.dim == 3 then t.pi else t.pi * 0.5) + s.phiZero
  }

  function DTheta(t: Trig, s: Setup): real
    requires s.thetaSlices > 0
  {
    (MaxTheta(t, s) - MinTheta(s)) / s.thetaSlices as real
  }

  function DPhi(t: Trig, s: Setup): real
    requires s.phiSlices > 0
  {
    t.pi * 2.0 / s.phiSlices as real
  }

  function Phi(t: Trig, s: Setup, n: nat): real
    requires s.phiSlices > 0
  {
    s.phiZero + 0.5 * DPhi(t, s) + DPhi(t, s) * n as real + s.phiZero * t.pi / 180.0
  }

  function Theta(t: Trig, s: Setup, n: nat): real
    requires s.thetaSlices > 0
  {
    MinTheta(s) + DTheta(t, s) * 0.5 + DTheta(t, s) * n as real
  }

  /** Solid angle of a slice around theta. */
  function OmegaAt(t: Trig, weight: real, theta: real, dTheta: real, dPhi: real): real {
    weight * 2.0 * t.Sin(theta) * t.Sin(0.5 * dTheta) * dPhi
  }

  /** Direction at the middle of a slice. */
  function MiddleAt(t: Trig, theta: real, phi: real): Vec {
    Vec(t.Sin(theta) * t.Sin(phi), t.Sin(theta) * t.Cos(phi), t.Cos(theta))
  }

  /** The polar factor of the horizontal components. */
  function PolarAt(t: Trig, theta: real, dTheta: real): real {
    dTheta - t.Cos(2.0 * theta) * t.Sin(dTheta)
  }

  /** Direction integrated over a slice. */
  function IntegratedAt(t: Trig, weight: real, theta: real, phi: real, dTheta: real, dPhi: real): Vec {
    Vec(weight * t.Sin(phi) * t.Sin(0.5 * dPhi) * PolarAt(t, theta, dTheta),
        weight * t.Cos(phi) * t.Sin(0.5 * dPhi) * PolarAt(t, theta, dTheta),
        weight * 0.5 * dPhi * t.Sin(2.0 * theta) * t.Sin(dTheta))
  }

  function Omega(t: Trig, s: Setup, np: nat, nt: nat): real
    requires ValidSetup(s)
  {
    OmegaAt(t, Weight(s), Theta(t, s, nt), DTheta(t, s), DPhi(t, s))
  }

  function Middle(t: Trig, s: Setup, np: nat, nt: nat): Vec
    requires ValidSetup(s)
  {
    MiddleAt(t, Theta(t, s, nt), Phi(t, s, np))
  }

  function Integrated(t: Trig, s: Setup, np: nat, nt: nat): Vec
    requires ValidSetup(s)
  {
    IntegratedAt(t, Weight(s), Theta(t, s, nt), Phi(t, s, np), DTheta(t, s), DPhi(t, s))
  }

  function Slices(s: Setup): nat { s.phiSlices * s.thetaSlices }

  /** Number of the slice (np, nt). */
  function Slice(s: Setup, np: nat, nt: nat): nat { np * s.thetaSlices + nt }

  lemma SliceInRange(s: Setup, np: nat, nt: nat)
    requires np < s.phiSlices && nt < s.thetaSlices
    ensures Slice(s, np, nt) < Slices(s)
  {
    assert (np + 1) * s.thetaSlices <= s.phiSlices * s.thetaSlices;
  }

  /** The slices computed so far, in the order they are numbered. */
  ghost predicate Filled(t: Trig, s: Setup, dOmega: seq<real>, dir: seq<Vec>, directions: seq<Vec>, n: nat)
    requires ValidSetup(s)
  {
    && |dOmega| == |dir| == |directions| == Slices(s)
    && forall np: nat, nt: nat ::
         (np < s.phiSlices && nt < s.thetaSlices && Slice(s, np, nt) < n && Slice(s, np, nt) < Slices(s)) ==>
         && dOmega[Slice(s, np, nt)] == Omega(t, s, np, nt)
         && dir[Slice(s, np, nt)] == Middle(t, s, np, nt)
         && directions[Slice(s, np, nt)] == Integrated(t, s, np, nt)
  }

  lemma SliceUnique(s: Setup, np: nat, nt: nat, mp: nat, mt: nat)
    requires nt < s.thetaSlices && mt < s.thetaSlices && Slice(s, np, nt) == Slice(s, mp, mt)
    ensures np == mp && nt == mt
  {
    if np < mp { RowsApart(np, mp, s.thetaSlices); }
    if mp < np { RowsApart(mp, np, s.thetaSlices); }
  }

  lemma RowsApart(a: nat, b: nat, width: nat)
    requires a < b
    ensures a * width + width <= b * width
  {
    assert (a + 1) * width <= b * width;
  }

  lemma FilledNext(t: Trig, s: Setup, dOmega: seq<real>, dir: seq<Vec>, directions: seq<Vec>, np: nat, nt: nat)
    requires ValidSetup(s) && np < s.phiSlices && nt < s.thetaSlices
    requires Filled(t, s, dOmega, dir, directions, Slice(s, np, nt))
    ensures Slice(s, np, nt) < Slices(s)
    ensures var k := Slice(s, np, nt);
            Filled(t, s, dOmega[k := Omega(t, s, np, nt)], dir[k := Middle(t, s, np, nt)],
                   directions[k := Integrated(t, s, np, nt)], k + 1)
  {
    SliceInRange(s, np, nt);
    var k := Slice(s, np, nt);
    forall mp: nat, mt: nat | mp < s.phiSlices && mt < s.thetaSlices && Slice(s, mp, mt) == k
      ensures mp == np && mt == nt
    {
      SliceUnique(s, np, nt, mp, mt);
    }
    hide Omega, Middle, Integrated, Slice, Slices;
  }

  /** Solid angle, middle and integrated direction of one slice. */
  method SliceValues(t: Trig, weight: real, dTheta: real, dPhi: real, theta: real, phi: real)
    returns (angle: real, middle: Vec, integrated: Vec)
    ensures angle == OmegaAt(t, weight, theta, dTheta, dPhi)
    ensures middle == MiddleAt(t, theta, phi)
    ensures integrated == IntegratedAt(t, weight, theta, phi, dTheta, dPhi)
  {
    angle := weight * 2.0 * t.Sin(theta) * t.Sin(0.5 * dTheta) * dPhi;
    middle := Vec(t.Sin(theta) * t.Sin(phi), t.Sin(theta) * t.Cos(phi), t.Cos(theta));
    var polar := dTheta - t.Cos(2.0 * theta) * t.Sin(dTheta);
    integrated := Vec(weight * t.Sin(phi) * t.Sin(0.5 * dPhi) * polar,
                      weight * t.Cos(phi) * t.Sin(0.5 * dPhi) * polar,
                      weight * 0.5 * dPhi * t.Sin(2.0 * theta) * t.Sin(dTheta));
  }

  class AngularIntegrator {
    const trig: Trig
    const setup: Setup
    var dOmega: array<real>
    var dir: array<Vec>
    var directions: array<Vec>

    constructor (trig: Trig, setup: Setup)
      ensures this.trig == trig && this.setup == setup && fresh(dOmega) && fresh(dir) && fresh(directions)
    {
      this.trig, this.setup := trig, setup;
      dOmega, dir, directions := new real[0], new Vec[0], new Vec[0];
    }

    /** One slice is entered at position k. */
    method SetSlice(k: nat, np: nat, nt: nat, weight: real, dTheta: real, dPhi: real, theta: real, phi: real)
      requires ValidSetup(setup) && np < setup.phiSlices && nt < setup.thetaSlices && k == Slice(setup, np, nt)
      requires weight == Weight(setup) && dTheta == DTheta(trig, setup) && dPhi == DPhi(trig, setup)
      requires theta == MinTheta(setup) + dTheta * 0.5 + dTheta * nt as real
      requires phi == setup.phiZero + 0.5 * dPhi + dPhi * np as real + setup.phiZero * trig.pi / 180.0
      requires dir != directions && Filled(trig, setup, dOmega[..], dir[..], directions[..], k)
      modifies dOmega, dir, directions
      ensures Filled(trig, setup, dOmega[..], dir[..], directions[..], k + 1)
    {
      var t := trig;
      ghost var o, d, i := dOmega[..], dir[..], directions[..];
      SliceInRange(setup, np, nt);
      FilledNext(t, setup, o, d, i, np, nt);
      FilledLengths(t, setup, o, d, i, k);
      hide Filled, DTheta, DPhi, Slice, Slices, Weight, MinTheta, Omega, Middle, Integrated;
      var angle, middle, integrated := SliceValues(t, weight, dTheta, dPhi, theta, phi);
      SliceOfAngles(t, setup, np, nt, weight, dTheta, dPhi, theta, phi);
      hide OmegaAt, MiddleAt, IntegratedAt;
      dOmega[k], dir[k], directions[k] := angle, middle, integrated;
      assert dOmega[..] == o[k := angle];
      assert dir[..] == d[k := middle];
      assert directions[..] == i[k := integrated];
    }

    /** All slices, azimuth outside, polar angle inside. */
    method ComputeDirections()
      requires ValidSetup(setup)
      modifies this
      ensures fresh(dOmega) && fresh(dir) && fresh(directions)
      ensures Filled(trig, setup, dOmega[..], dir[..], directions[..], Slices(setup))
    {
      hide Omega, Middle, Integrated, Filled;
      var n := setup.phiSlices * setup.thetaSlices;
      dOmega, dir, directions := new real[n], new Vec[n], new Vec[n];
      var weight := if setup.dim == 3 then 1.0 else 2.0;
      var minTheta, maxTheta := setup.phiZero, (if setup.dim == 3 then trig.pi else trig.pi * 0.5) + setup.phiZero;
      var dTheta := (maxTheta - minTheta) / setup.thetaSlices as real;
      var dPhi := trig.pi * 2.0 / setup.phiSlices as real;
      var k := 0;
      FilledNothing(trig, setup, dOmega[..], dir[..], directions[..]);
      hide DTheta, DPhi;
      for np := 0 to setup.phiSlices
        invariant k == Slice(setup, np, 0)
        invariant fresh(dOmega) && fresh(dir) && fresh(directions) && dir != directions
        invariant Filled(trig, setup, dOmega[..], dir[..], directions[..], k)
      {
        var phi := setup.phiZero + 0.5 * dPhi + dPhi * np as real + setup.phiZero * trig.pi / 180.0;
        for nt := 0 to setup.thetaSlices
          invariant k == Slice(setup, np, nt)
          invariant fresh(dOmega) && fresh(dir) && fresh(directions) && dir != directions
          invariant Filled(trig, setup, dOmega[..], dir[..], directions[..], k)
        {
          var theta := minTheta + dTheta * 0.5 + dTheta * nt as real;
          SetSlice(k, np, nt, weight, dTheta, dPhi, theta, phi);
          k := k + 1;
        }
        NextRow(setup, np);
      }
      LastRow(setup);
    }
  }

  lemma NextRow(s: Setup, np: nat)
    ensures Slice(s, np, s.thetaSlices) == Slice(s, np + 1, 0)
  {}

  lemma LastRow(s: Setup)
    ensures Slice(s, s.phiSlices, 0) == Slices(s)
  {}

  lemma FilledLengths(t: Trig, s: Setup, dOmega: seq<real>, dir: seq<Vec>, directions: seq<Vec>, n: nat)
    requires ValidSetup(s) && Filled(t, s, dOmega, dir, directions, n)
    ensures |dOmega| == |dir| == |directions| == Slices(s)
  {}

  lemma FilledNothing(t: Trig, s: Setup, dOmega: seq<real>, dir: seq<Vec>, directions: seq<Vec>)
    requires ValidSetup(s) && |dOmega| == |dir| == |directions| == Slices(s)
    ensures Filled(t, s, dOmega, dir, directions, 0)
  {}

  /** The values at the angles of a slice are the slice's values. */
  lemma SliceOfAngles(t: Trig, s: Setup, np: nat, nt: nat, weight: real, dTheta: real, dPhi: real, theta: real,
                      phi: real)
    requires ValidSetup(s) && weight == Weight(s) && dTheta == DTheta(t, s) && dPhi == DPhi(t, s)
    requires theta == MinTheta(s) + dTheta * 0.5 + dTheta * nt as real
    requires phi == s.phiZero + 0.5 * dPhi + dPhi * np as real + s.phiZero * t.pi / 180.0
    ensures OmegaAt(t, weight, theta, dTheta, dPhi) == Omega(t, s, np, nt)
    ensures MiddleAt(t, theta, phi) == Middle(t, s, np, nt)
    ensures IntegratedAt(t, weight, theta, phi, dTheta, dPhi) == Integrated(t, s, np, nt)
  {
    SliceAngles(t, s, np, nt, dTheta, dPhi, theta, phi);
    hide OmegaAt, MiddleAt, IntegratedAt, DTheta, DPhi, Theta, Phi;
  }

  lemma SliceAngles(t: Trig, s: Setup, np: nat, nt: nat, dTheta: real, dPhi: real, theta: real, phi: real)
    requires ValidSetup(s) && dTheta == DTheta(t, s) && dPhi == DPhi(t, s)
    requires theta == MinTheta(s) + dTheta * 0.5 + dTheta * nt as real
    requires phi == s.phiZero + 0.5 * dPhi + dPhi * np as real + s.phiZero * t.pi / 180.0
    ensures theta == Theta(t, s, nt) && phi == Phi(t, s, np)
  {
    hide DTheta, DPhi;
  }
}
