/** The power behind the terminal currents: every carrier's drift heats, whatever its charge, and the
    currents tested with a quasi-Fermi potential common to all carriers give the dissipated power. */
module TerminalPower {
  import opened Calculus
  import opened Forms
  import opened BoxMesh
  import opened TerminalCurrents
  import opened RamoShockley

  /** The listed sign is the sign of the charge. */
  ghost predicate SignFits(c: Carrier) {
    (c.charge > 0.0 ==> c.positive) && (c.charge < 0.0 ==> !c.positive)
  }

  /** Heat of a carrier: weight * e * |charge| * conductivity * scale * squared gradient. */
  function Joule(weight: real, e: real, charge: real, cond: real, scale: real, square: real): real {
    weight * e * Abs(charge) * cond * scale * square
  }

  /** Joule's law for one carrier: drift current times gradient of its quasi-Fermi potential. */
  lemma DriftHeats(d: Device, c: Cell, q: QPoint, v: nat)
    requires ValidCell(c) && ValidPoint(c, q) && v < |c.carriers| && SignFits(c.carriers[v])
    ensures var g := Gradient(q.dphi, c.carriers[v].qf, |c.nodes|);
      Inner(Drift(d, c, q, v), g) == Joule(q.jxw, d.e, c.carriers[v].charge, q.cond[v], d.phi0, Inner(g, g))
    ensures d.e > 0.0 && d.phi0 > 0.0 && q.jxw >= 0.0 && q.cond[v] >= 0.0 ==>
      Inner(Drift(d, c, q, v), Gradient(q.dphi, c.carriers[v].qf, |c.nodes|)) >= 0.0
  {
    hide Gradient, Inner, Times3, Abs, SignOf, Joule;
    var g, charge := Gradient(q.dphi, c.carriers[v].qf, |c.nodes|), c.carriers[v].charge;
    var n := Inner(g, g);
    SignTimesCharge(c.carriers[v]);
    var s, sign := Sigma(d, c, q, v), SignOf(c.carriers[v].positive);
    ScaleInner(s, sign, d.phi0, g);
    assert Drift(d, c, q, v) == Times3(s, Times3(sign, Times3(d.phi0, g)));
    Regroup(q.jxw, d.e, charge, q.cond[v], sign, d.phi0, n, s, Inner(Drift(d, c, q, v), g));
    if d.e > 0.0 && d.phi0 > 0.0 && q.jxw >= 0.0 && q.cond[v] >= 0.0 {
      SquareNonNegative(g);
      Heat(q.jxw, d.e, charge, q.cond[v], d.phi0, n);
    }
  }

  lemma SignTimesCharge(c: Carrier)
    requires SignFits(c)
    ensures SignOf(c.positive) * c.charge == Abs(c.charge) && Abs(c.charge) >= 0.0
  {}

  lemma SquareNonNegative(g: Vec)
    ensures Inner(g, g) >= 0.0
  {}

  lemma ScaleInner(s: real, sign: real, phi0: real, g: Vec)
    ensures Inner(Times3(s, Times3(sign, Times3(phi0, g))), g) == s * (sign * (phi0 * Inner(g, g)))
  {
    var k := s * (sign * phi0);
    ThreeScales(s, sign, phi0, g.x, k);
    ThreeScales(s, sign, phi0, g.y, k);
    ThreeScales(s, sign, phi0, g.z, k);
    ThreeScales(s, sign, phi0, Inner(g, g), k);
    assert k * g.x * g.x + k * g.y * g.y + k * g.z * g.z == k * Inner(g, g);
  }

  lemma ThreeScales(s: real, sign: real, phi0: real, x: real, k: real)
    requires k == s * (sign * phi0)
    ensures s * (sign * (phi0 * x)) == k * x
  {
    var p := sign * phi0;
    assert sign * (phi0 * x) == p * x;
  }

  lemma Regroup(j: real, e: real, charge: real, cond: real, sign: real, phi0: real, n: real, s: real, r: real)
    requires sign * charge == Abs(charge) && s == j * (e * charge * cond) && r == s * (sign * (phi0 * n))
    ensures r == Joule(j, e, charge, cond, phi0, n)
  {
    var a, m, k := Abs(charge), phi0 * n, j * e;
    Swap3(j, e, charge, cond);
    assert s == k * cond * charge;
    assert k * cond * charge * (sign * m) == k * cond * (sign * charge) * m;
    assert k * cond * a * m == k * a * cond * phi0 * n by { Swap4(k, cond, a, phi0, n, m); }
  }

  lemma Swap3(j: real, e: real, charge: real, cond: real)
    ensures j * (e * charge * cond) == j * e * cond * charge
  {}

  lemma Swap4(k: real, cond: real, a: real, phi0: real, n: real, m: real)
    requires m == phi0 * n
    ensures k * cond * a * m == k * a * cond * phi0 * n
  {
    var r := k * a * cond;
    assert k * cond * a == r;
  }

  lemma Heat(j: real, e: real, charge: real, cond: real, phi0: real, n: real)
    requires j >= 0.0 && e > 0.0 && cond >= 0.0 && phi0 > 0.0 && n >= 0.0
    ensures Joule(j, e, charge, cond, phi0, n) >= 0.0
  {
    var a := Abs(charge);
    NonNegative(j, e);
    NonNegative(j * e, a);
    NonNegative(j * e * a, cond);
    NonNegative(j * e * a * cond, phi0);
    NonNegative(j * e * a * cond * phi0, n);
  }

  // ---------------------------------------------------------------------------------------
  // The currents of a common quasi-Fermi potential

  /** Nodal values of a test function. */
  function Nodal(c: Cell, w: nat -> real): (f: seq<real>)
    ensures |f| == |c.nodes| && forall n: nat :: n < |f| ==> f[n] == w(c.nodes[n])
  {
    seq(|c.nodes|, n requires 0 <= n < |c.nodes| => w(c.nodes[n]))
  }

  /** Value at a quadrature point from the first n nodes. */
  function Interpolated(phi: seq<real>, f: seq<real>, n: nat): real
    requires n <= |phi| && n <= |f|
  {
    if n == 0 then 0.0 else Interpolated(phi, f, n - 1) + phi[n - 1] * f[n - 1]
  }

  /** All carriers have the quasi-Fermi potential w, and the listed signs are those of the charges. */
  ghost predicate Common(c: Cell, w: nat -> real)
  {
    forall v :: 0 <= v < |c.carriers| ==> c.carriers[v].qf == Nodal(c, w) && SignFits(c.carriers[v])
  }

  /** Thermoelectric power: weight * e * charge * conductivity * thermopower * (grad T . grad w). */
  function Peltier(weight: real, e: real, charge: real, cond: real, thermo: real, product: real): real {
    weight * (e * charge * cond) * (thermo * product)
  }

  /** Charge that recombines, at a potential. */
  function Recombined(weight: real, e: real, charge: real, rate: real, value: real): real {
    weight * e * charge * rate * value
  }

  /** What one carrier delivers at a point: heat, thermoelectric power, and its potential times its generation. */
  function CarrierPower(d: Device, c: Cell, q: QPoint, w: nat -> real): nat -> real
    requires ValidCell(c) && ValidPoint(c, q)
  {
    var f := Nodal(c, w);
    var g := Gradient(q.dphi, f, |c.nodes|);
    (v: nat) => if v < |c.carriers| then
        Joule(q.jxw, d.e, c.carriers[v].charge, q.cond[v], d.phi0, Inner(g, g))
        + Peltier(q.jxw, d.e, c.carriers[v].charge, q.cond[v], q.thermo[v], Inner(TemperatureGradient(c, q), g))
        - Recombined(q.jxw, d.e, c.carriers[v].charge, q.rate[v], Interpolated(q.phi, f, |c.nodes|))
      else 0.0
  }

  /** The nodes' shares of one carrier's current and generation, tested. */
  function Shares(d: Device, c: Cell, q: QPoint, w: nat -> real, v: nat): nat -> real
    requires ValidCell(c) && ValidPoint(c, q) && v < |c.carriers|
  {
    (n: nat) => if n < |c.nodes| then w(c.nodes[n]) * GlobalValue(d, c, q, n, v) else 0.0
  }

  lemma InnerStep(a: Vec, g: Vec, f: real, dphi: Vec)
    ensures Inner(a, Plus3(g, Times3(f, dphi))) == Inner(a, g) + f * Inner(a, dphi)
  {
    assert a.x * (f * dphi.x) == f * (a.x * dphi.x);
    assert a.y * (f * dphi.y) == f * (a.y * dphi.y);
    assert a.z * (f * dphi.z) == f * (a.z * dphi.z);
  }

  /** Summed over the nodes, shape functions interpolate and their gradients differentiate. */
  lemma {:induction false} SharesSum(d: Device, c: Cell, q: QPoint, w: nat -> real, v: nat, n: nat)
    requires ValidCell(c) && ValidPoint(c, q) && v < |c.carriers| && n <= |c.nodes|
    ensures Sum(Shares(d, c, q, w, v), n)
      == Inner(Current(d, c, q, v), Gradient(q.dphi, Nodal(c, w), n))
       + Rate(d, c, q, v) * Interpolated(q.phi, Nodal(c, w), n)
  {
    hide Current, Rate, Inner, Plus3, Times3;
    var a, r := Current(d, c, q, v), Rate(d, c, q, v);
    if n == 0 {
      InnerZero(a);
    } else {
      SharesSum(d, c, q, w, v, n - 1);
      var f, m := w(c.nodes[n - 1]), n - 1;
      InnerStep(a, Gradient(q.dphi, Nodal(c, w), m), f, q.dphi[m]);
      assert Shares(d, c, q, w, v)(m) == f * (Inner(a, q.dphi[m]) + r * q.phi[m]);
      OneShare(f, Inner(a, q.dphi[m]), r, q.phi[m], Interpolated(q.phi, Nodal(c, w), m));
    }
  }

  lemma OneShare(f: real, i: real, r: real, phi: real, t: real)
    ensures f * (i + r * phi) == f * i + r * (phi * f)
    ensures r * (t + phi * f) == r * t + r * (phi * f)
  {}

  lemma InnerScaled(k: real, a: Vec, b: Vec, s: real, g: Vec)
    ensures Inner(Times3(k, Plus3(a, Times3(s, b))), g) == Inner(Times3(k, a), g) + k * (s * Inner(b, g))
  {
    Spread3(k, a.x, s, b.x, g.x);
    Spread3(k, a.y, s, b.y, g.y);
    Spread3(k, a.z, s, b.z, g.z);
    Gather3(k, s, b.x * g.x, b.y * g.y, b.z * g.z);
  }

  lemma Spread3(k: real, a: real, s: real, b: real, g: real)
    ensures k * (a + s * b) * g == k * a * g + k * (s * (b * g))
  {
    assert k * (a + s * b) == k * a + k * (s * b);
    assert k * (s * b) * g == k * (s * (b * g));
  }

  lemma Gather3(k: real, s: real, a: real, b: real, c: real)
    ensures k * (s * a) + k * (s * b) + k * (s * c) == k * (s * (a + b + c))
  {}

  /** One carrier at one point. */
  lemma CarrierWork(d: Device, c: Cell, q: QPoint, w: nat -> real, v: nat)
    requires ValidCell(c) && ValidPoint(c, q) && v < |c.carriers| && Common(c, w)
    ensures Sum(Shares(d, c, q, w, v), |c.nodes|) == CarrierPower(d, c, q, w)(v)
  {
    hide Inner, Times3, Plus3, Gradient, Joule, TemperatureGradient, FermiGradient, Interpolated, Peltier, Recombined;
    hide Sigma, Rate, SignOf;
    var f := Nodal(c, w);
    var g, t := Gradient(q.dphi, f, |c.nodes|), Interpolated(q.phi, f, |c.nodes|);
    SharesSum(d, c, q, w, v, |c.nodes|);
    DriftHeats(d, c, q, v);
    var a := Times3(SignOf(c.carriers[v].positive), FermiGradient(d, c, q, v));
    InnerScaled(Sigma(d, c, q, v), a, TemperatureGradient(c, q), q.thermo[v], g);
    SigmaTimes(d, c, q, v, Inner(TemperatureGradient(c, q), g));
    RateTimes(d, c, q, v, t);
  }

  lemma SigmaTimes(d: Device, c: Cell, q: QPoint, v: nat, i: real)
    requires ValidPoint(c, q) && v < |c.carriers|
    ensures Sigma(d, c, q, v) * (q.thermo[v] * i)
      == Peltier(q.jxw, d.e, c.carriers[v].charge, q.cond[v], q.thermo[v], i)
  {}

  lemma RateTimes(d: Device, c: Cell, q: QPoint, v: nat, t: real)
    requires ValidPoint(c, q) && v < |c.carriers|
    ensures Rate(d, c, q, v) * t == -Recombined(q.jxw, d.e, c.carriers[v].charge, q.rate[v], t)
  {
    NegatedProduct(q.jxw, d.e, c.carriers[v].charge, q.rate[v], t);
  }

  lemma NegatedProduct(j: real, e: real, charge: real, rate: real, t: real)
    ensures -j * e * charge * rate * t == -(j * e * charge * rate * t)
  {
    var k := j * e;
    assert -j * e == -k;
    var m := k * charge;
    assert -k * charge == -m;
    assert -m * rate == -(m * rate);
  }

  /** All carriers at one point. */
  lemma PointPower(d: Device, c: Cell, q: QPoint, w: nat -> real)
    requires ValidCell(c) && ValidPoint(c, q) && Common(c, w)
    ensures Sum(NodeWork(d, c, q, w), |c.nodes|) == Sum(CarrierPower(d, c, q, w), |c.carriers|)
  {
    hide GlobalValue, Sum, CarrierPower, Common;
    var t := WeightedTable(d, c, q, w);
    forall n: nat | n < |c.nodes| ensures NodeWork(d, c, q, w)(n) == RowSums(t, |c.carriers|)(n) {
      forall v: nat | v < |c.carriers| ensures RowOf(t, n)(v) == w(c.nodes[n]) * GlobalOf(d, c, q, n)(v) {}
      SumScale(GlobalOf(d, c, q, n), w(c.nodes[n]), RowOf(t, n), |c.carriers|);
    }
    SumEqual(NodeWork(d, c, q, w), RowSums(t, |c.carriers|), |c.nodes|);
    SwapSums(t, |c.nodes|, |c.carriers|);
    forall v: nat | v < |c.carriers| ensures ColumnSums(t, |c.nodes|)(v) == CarrierPower(d, c, q, w)(v) {
      SumEqual(ColumnOf(t, v), Shares(d, c, q, w, v), |c.nodes|);
      CarrierWork(d, c, q, w, v);
    }
    SumEqual(ColumnSums(t, |c.nodes|), CarrierPower(d, c, q, w), |c.carriers|);
  }

  function WeightedTable(d: Device, c: Cell, q: QPoint, w: nat -> real): (nat, nat) -> real
    requires ValidCell(c) && ValidPoint(c, q)
  {
    (n: nat, v: nat) => if n < |c.nodes| && v < |c.carriers| then w(c.nodes[n]) * GlobalValue(d, c, q, n, v) else 0.0
  }

  function PowerAt(d: Device, c: Cell, w: nat -> real): nat -> real
    requires ValidCell(c)
  {
    (i: nat) => if i < |c.points| then Sum(CarrierPower(d, c, c.points[i], w), |c.carriers|) else 0.0
  }

  function PowerIn(d: Device, w: nat -> real): nat -> real
    requires ValidDevice(d)
  {
    (k: nat) => if k < |d.cells| then Sum(PowerAt(d, d.cells[k], w), |d.cells[k].points|) else 0.0
  }

  ghost predicate CommonPotential(d: Device, w: nat -> real) {
    forall k :: 0 <= k < |d.cells| ==> Common(d.cells[k], w)
  }

  /** With one quasi-Fermi potential for all carriers as the test function, minus the terminal current is the
      power of the device: heat of every carrier, thermoelectric power, and what generation delivers. */
  lemma PowerBalance(d: Device, w: nat -> real)
    requires ValidDevice(d) && CommonPotential(d, w)
    ensures -TerminalCurrent(d, w) == Sum(PowerIn(d, w), |d.cells|)
  {
    hide CurrentForm, Sum, NodeWork, CarrierPower, Common;
    FormTested(d, w);
    forall k: nat | k < |d.cells| ensures CellWorks(d, w)(k) == PowerIn(d, w)(k) {
      var c := d.cells[k];
      forall i: nat | i < |c.points| ensures PointWork(d, c, w)(i) == PowerAt(d, c, w)(i) {
        PointPower(d, c, c.points[i], w);
      }
      SumEqual(PointWork(d, c, w), PowerAt(d, c, w), |c.points|);
    }
    SumEqual(CellWorks(d, w), PowerIn(d, w), |d.cells|);
  }

  /** No temperature gradient, no recombination, physical constants and conductivities. */
  ghost predicate Resistive(d: Device)
    requires ValidDevice(d)
  {
    && d.e > 0.0 && d.phi0 > 0.0
    && forall k, i :: 0 <= k < |d.cells| && 0 <= i < |d.cells[k].points| ==>
         var c, q := d.cells[k], d.cells[k].points[i];
         && q.jxw >= 0.0 && TemperatureGradient(c, q) == ZERO
         && forall v :: 0 <= v < |c.carriers| ==> q.cond[v] >= 0.0 && q.rate[v] == 0.0
  }

  /** Then the currents run down their potential, for any mix of carriers. */
  lemma CurrentsDissipate(d: Device, w: nat -> real)
    requires ValidDevice(d) && CommonPotential(d, w) && Resistive(d)
    ensures TerminalCurrent(d, w) <= 0.0
  {
    PowerBalance(d, w);
    hide TerminalCurrent, Sum, CarrierPower;
    forall k: nat | k < |d.cells| ensures PowerIn(d, w)(k) >= 0.0 {
      var c := d.cells[k];
      forall i: nat | i < |c.points| ensures PowerAt(d, c, w)(i) >= 0.0 {
        var q := c.points[i];
        forall v: nat | v < |c.carriers| ensures CarrierPower(d, c, q, w)(v) >= 0.0 { CarrierHeats(d, c, q, w, v); }
        SumNonNegative(CarrierPower(d, c, q, w), |c.carriers|);
      }
      SumNonNegative(PowerAt(d, c, w), |c.points|);
    }
    SumNonNegative(PowerIn(d, w), |d.cells|);
  }

  lemma CarrierHeats(d: Device, c: Cell, q: QPoint, w: nat -> real, v: nat)
    requires ValidCell(c) && ValidPoint(c, q) && v < |c.carriers| && d.e > 0.0 && d.phi0 > 0.0 && q.jxw >= 0.0
    requires TemperatureGradient(c, q) == ZERO && q.cond[v] >= 0.0 && q.rate[v] == 0.0
    ensures CarrierPower(d, c, q, w)(v) >= 0.0
  {
    var g := Gradient(q.dphi, Nodal(c, w), |c.nodes|);
    SquareNonNegative(g);
    Heat(q.jxw, d.e, c.carriers[v].charge, q.cond[v], d.phi0, Inner(g, g));
    assert Inner(ZERO, g) == 0.0;
    hide Joule, Inner, Gradient, TemperatureGradient, Interpolated;
    NoOther(q.jxw * (d.e * c.carriers[v].charge * q.cond[v]), q.thermo[v], q.jxw * d.e * c.carriers[v].charge,
            Interpolated(q.phi, Nodal(c, w), |c.nodes|));
  }

  lemma NoOther(k: real, s: real, m: real, t: real)
    ensures k * (s * 0.0) == 0.0 && m * 0.0 * t == 0.0
  {}
}
