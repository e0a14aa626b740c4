/** Carrier statistics and recombination meet what the theorems about the assembly ask of the models. */
module ModelBridge {
  import opened Calculus
  import opened EdgeFlux
  import opened Forms
  import opened BoxMesh
  import opened BoxJacobian
  import opened BoxDerivative
  import CurrentContinuity
  import R = Recombination
  import S = CarrierStatistics

  /** Block k of the element's model at a node is a carrier with the given statistics; base holds
      everything but the two potentials. */
  ghost predicate ReportsCarrier(el: Element, n: nat, k: nat, c: S.Carrier, base: S.Point)
    requires k < |el.dofs| && el.u < |el.dofs| && S.Predictable(c, base)
  {
    forall pots: seq<real> {:trigger el.model(n, pots)} :: |pots| == |el.dofs| ==>
      var p := base.(fermi := pots[k], phi := pots[el.u]);
      && S.Predictable(c, p)
      && el.model(n, pots).sigma(k) == S.Reported(c, p, 0.0).conductivity
      && el.model(n, pots).dsigma(k) == S.Reported(c, p, 0.0).conductivitySlope
  }

  function PointOf(p: Params, el: Element, x: seq<real>, n: nat, k: nat, base: S.Point): S.Point
    requires Fits(el, x) && n < el.nNodes && k < |el.dofs|
  {
    base.(fermi := p.phi0 * Potential(el, x, k, n), phi := p.phi0 * Potential(el, x, el.u, n))
  }

  lemma PotentialsMove(p: Params, el: Element, x: seq<real>, v: seq<real>, n: nat, k: nat, base: S.Point, h: Arg)
    requires Fits(el, x) && |v| == |x| && n < el.nNodes && k < |el.dofs|
    ensures PointOf(p, el, Shift(x, h, v), n, k, base)
         == S.Moved(PointOf(p, el, x, n, k, base), p.phi0 * Move(el, v, k, n), p.phi0 * Move(el, v, el.u, n), h)
  {}

  lemma SigmaIs(p: Params, el: Element, x: seq<real>, n: nat, k: nat, c: S.Carrier, base: S.Point)
    requires Fits(el, x) && n < el.nNodes && k < |el.dofs| && S.Predictable(c, base)
    requires ReportsCarrier(el, n, k, c, base)
    ensures S.Predictable(c, PointOf(p, el, x, n, k, base))
    ensures Local(p, el, x, n).sigma(k) == S.Reported(c, PointOf(p, el, x, n, k, base), 0.0).conductivity
    ensures Local(p, el, x, n).dsigma(k) == S.Reported(c, PointOf(p, el, x, n, k, base), 0.0).conductivitySlope
  {
    hide S.Reported;
    var pots := Potentials(p, el, x, n);
    assert pots[k] == p.phi0 * Potential(el, x, k, n) && pots[el.u] == p.phi0 * Potential(el, x, el.u, n);
    assert base.(fermi := pots[k], phi := pots[el.u]) == PointOf(p, el, x, n, k, base);
    assert Local(p, el, x, n) == el.model(n, pots);
  }

  lemma UnitMove(c: S.Carrier, slope: real, phi0: real, a: real, b: real, vf: real, vu: real, moved: real)
    requires c.charge == 1.0 || c.charge == -1.0
    requires vf == phi0 * a && vu == phi0 * b && moved == (-slope * phi0) * (a - b)
    ensures Product(slope, S.LevelMove(c, vf, vu)) == moved
  {}

  /** For a carrier of unit charge the conductivity moves as the Jacobian assumes. */
  lemma UnitChargeMeetsJacobian(p: Params, el: Element, x: seq<real>, v: seq<real>, n: nat, k: nat, c: S.Carrier,
                                base: S.Point)
    requires Fits(el, x) && |v| == |x| && n < el.nNodes && k < |el.dofs|
    requires c.charge == 1.0 || c.charge == -1.0
    requires S.Predictable(c, base) && S.TrueDos(c) && !c.model.CONSTANT? && ReportsCarrier(el, n, k, c, base)
    ensures HasDeriv(SigmaAlong(p, el, x, v, n, k), SigmaMove(p, el, x, v, n, k))
  {
    hide HasDeriv, S.TrueDos, S.Reported, ReportsCarrier, S.Predictable, S.LevelMove, Local;
    SigmaIs(p, el, x, n, k, c, base);
    var pt, vf, vu := PointOf(p, el, x, n, k, base), p.phi0 * Move(el, v, k, n), p.phi0 * Move(el, v, el.u, n);
    S.ConductivityDerivative(c, pt, vf, vu);
    var f, g := S.ConductivityAlong(c, pt, vf, vu), SigmaAlong(p, el, x, v, n, k);
    forall h: Arg ensures g(h) == f(h) {
      SigmaIs(p, el, Shift(x, h, v), n, k, c, base);
      PotentialsMove(p, el, x, v, n, k, base, h);
      hide PointOf, S.Moved;
    }
    var slope := Local(p, el, x, n).dsigma(k);
    UnitMove(c, slope, p.phi0, Move(el, v, k, n), Move(el, v, el.u, n), vf, vu, SigmaMove(p, el, x, v, n, k));
    hide Product, SigmaMove, Move;
    DerivSame(f, g, Product(slope, S.LevelMove(c, vf, vu)));
  }

  // ---------------------------------------------------------------------------------------
  // Charge

  /** All carriers of the element, by block, with everything but the two potentials. */
  ghost predicate Ready(el: Element, cs: nat -> S.Carrier, bases: nat -> S.Point) {
    forall k: nat :: k < |el.dofs| && k != el.u ==>
      S.Predictable(cs(k), bases(k)) && S.TrueDos(cs(k)) && (cs(k).charge == 1.0 || cs(k).charge == -1.0)
  }

  function Statistics(el: Element, cs: nat -> S.Carrier, bases: nat -> S.Point, pots: seq<real>, k: nat): S.Result
    requires el.u < |el.dofs| == |pots| && k < |el.dofs| && S.Predictable(cs(k), bases(k))
  {
    S.Reported(cs(k), bases(k).(fermi := pots[k], phi := pots[el.u]), 0.0)
  }

  function ChargesAt(el: Element, cs: nat -> S.Carrier, bases: nat -> S.Point, pots: seq<real>): nat -> real
    requires el.u < |el.dofs| == |pots|
    requires forall k: nat :: k < |el.dofs| && k != el.u ==> S.Predictable(cs(k), bases(k))
  {
    (k: nat) => if k < |el.dofs| && k != el.u then Product(cs(k).charge, Statistics(el, cs, bases, pots, k).density)
      else 0.0
  }

  /** The node model reports the net charge of its carriers and fixed charges, and keeps minus charge times
      derivative as charge derivative. */
  ghost predicate ReportsCharge(el: Element, n: nat, cs: nat -> S.Carrier, bases: nat -> S.Point, fixed: real)
    requires el.u < |el.dofs| && Ready(el, cs, bases)
  {
    forall pots: seq<real> {:trigger el.model(n, pots)} :: |pots| == |el.dofs| ==>
      && el.model(n, pots).rho == Sum(ChargesAt(el, cs, bases, pots), |el.dofs|) + fixed
      && forall k: nat :: k < |el.dofs| && k != el.u ==>
           el.model(n, pots).drho(k) == -Product(cs(k).charge, Statistics(el, cs, bases, pots, k).derivative)
  }

  /** Charge of block k along a motion. */
  function ChargeCurve(p: Params, el: Element, x: seq<real>, v: seq<real>, n: nat, cs: nat -> S.Carrier,
                       bases: nat -> S.Point, k: nat): (f: Curve)
    requires Fits(el, x) && |v| == |x| && n < el.nNodes && Ready(el, cs, bases)
    ensures forall h: Arg {:trigger f(h)} ::
      f(h) == ChargesAt(el, cs, bases, Potentials(p, el, Shift(x, h, v), n))(k)
  {
    (h: Arg) => ChargesAt(el, cs, bases, Potentials(p, el, Shift(x, h, v), n))(k)
  }

  function ChargeCurves(p: Params, el: Element, x: seq<real>, v: seq<real>, n: nat, cs: nat -> S.Carrier,
                        bases: nat -> S.Point): nat -> Curve
    requires Fits(el, x) && |v| == |x| && n < el.nNodes && Ready(el, cs, bases)
  {
    (k: nat) => (h: Arg) => ChargesAt(el, cs, bases, Potentials(p, el, Shift(x, h, v), n))(k)
  }

  lemma ChargeCurveMoves(p: Params, el: Element, x: seq<real>, v: seq<real>, n: nat, cs: nat -> S.Carrier,
                         bases: nat -> S.Point, fixed: real, k: nat)
    requires Fits(el, x) && |v| == |x| && n < el.nNodes && Ready(el, cs, bases)
    requires ReportsCharge(el, n, cs, bases, fixed)
    requires k < |el.dofs|
    ensures HasDeriv(ChargeCurve(p, el, x, v, n, cs, bases, k), ChargeMove(p, el, x, v, n)(k))
  {
    hide HasDeriv, S.TrueDos, S.Reported, S.LevelMove, S.Predictable, Local, Potentials, ReportsCharge, PointOf,
         S.DensityAlong, Product;
    var f, d := ChargeCurve(p, el, x, v, n, cs, bases, k), ChargeMove(p, el, x, v, n)(k);
    var a, b, phi0, drho := Move(el, v, k, n), Move(el, v, el.u, n), p.phi0, Local(p, el, x, n).drho(k);
    ChargeMoveAt(p, el, x, v, n, k, a, b, phi0, drho);
    if k == el.u {
      DerivConst(f, 0.0);
    } else {
      var c, pt := cs(k), PointOf(p, el, x, n, k, bases(k));
      var vf, vu := p.phi0 * Move(el, v, k, n), p.phi0 * Move(el, v, el.u, n);
      ReportedSlope(p, el, x, n, cs, bases, fixed, k);
      S.DensityDerivative(c, pt, vf, vu);
      var g := S.DensityAlong(c, pt, vf, vu);
      forall h: Arg ensures f(h) == c.charge * g(h) { OneCharge(p, el, x, v, n, cs, bases, k, h); }
      assert c.charge == 1.0 || c.charge == -1.0;
      hide Ready, ChargeCurve, ChargesAt, Move;
      ScaledMove(f, g, c, S.Reported(c, pt, 0.0).derivative, phi0, a, b, vf, vu, drho, d);
    }
  }

  lemma ChargeMoveAt(p: Params, el: Element, x: seq<real>, v: seq<real>, n: nat, k: nat, a: real, b: real, phi0: real,
                     drho: real)
    requires Fits(el, x) && |v| == |x| && n < el.nNodes && k < |el.dofs|
    requires a == Move(el, v, k, n) && b == Move(el, v, el.u, n) && phi0 == p.phi0 && drho == Local(p, el, x, n).drho(k)
    ensures ChargeMove(p, el, x, v, n)(k) == if k == el.u then 0.0 else drho * phi0 * (a - b)
  {
    hide Local, Move;
    var s, move := ChargeSlope(p, el, x, n)(k), ChargeMove(p, el, x, v, n)(k);
    assert s == if k == el.u then 0.0 else drho * phi0;
    assert move == s * a - s * b;
    if k != el.u { Spread(drho, phi0, s, a, b); }
  }

  lemma Spread(drho: real, phi0: real, s: real, a: real, b: real)
    requires s == drho * phi0
    ensures s * a - s * b == drho * phi0 * (a - b)
  {}

  lemma ScaledMove(f: Curve, g: Curve, c: S.Carrier, slope: real, phi0: real, a: real, b: real, vf: real, vu: real,
                   drho: real, d: real)
    requires (c.charge == 1.0 || c.charge == -1.0) && vf == phi0 * a && vu == phi0 * b
    requires drho == -Product(c.charge, slope) && HasDeriv(g, Product(slope, S.LevelMove(c, vf, vu)))
    requires d == drho * phi0 * (a - b) && forall h: Arg :: f(h) == c.charge * g(h)
    ensures HasDeriv(f, d)
  {
    hide HasDeriv;
    UnitChargeMove(c, c.charge, slope, phi0, a, b, vf, vu, drho);
    DerivScale(g, Product(slope, S.LevelMove(c, vf, vu)), c.charge, f, d);
  }

  lemma ReportedSlope(p: Params, el: Element, x: seq<real>, n: nat, cs: nat -> S.Carrier, bases: nat -> S.Point,
                      fixed: real, k: nat)
    requires Fits(el, x) && n < el.nNodes && Ready(el, cs, bases) && ReportsCharge(el, n, cs, bases, fixed)
    requires k < |el.dofs| && k != el.u
    ensures S.Predictable(cs(k), PointOf(p, el, x, n, k, bases(k)))
    ensures Local(p, el, x, n).drho(k)
      == -Product(cs(k).charge, S.Reported(cs(k), PointOf(p, el, x, n, k, bases(k)), 0.0).derivative)
  {
    hide S.Reported, S.TrueDos, S.Predictable, Product;
    SamePoint(p, el, x, n, k, cs(k), bases(k));
    var pots := Potentials(p, el, x, n);
    assert Local(p, el, x, n) == el.model(n, pots);
  }

  lemma OneCharge(p: Params, el: Element, x: seq<real>, v: seq<real>, n: nat, cs: nat -> S.Carrier,
                  bases: nat -> S.Point, k: nat, h: Arg)
    requires Fits(el, x) && |v| == |x| && n < el.nNodes && Ready(el, cs, bases) && k < |el.dofs| && k != el.u
    ensures S.Predictable(cs(k), PointOf(p, el, x, n, k, bases(k)))
    ensures var g := S.DensityAlong(cs(k), PointOf(p, el, x, n, k, bases(k)),
                                    p.phi0 * Move(el, v, k, n), p.phi0 * Move(el, v, el.u, n));
      ChargeCurve(p, el, x, v, n, cs, bases, k)(h) == cs(k).charge * g(h)
  {
    hide S.Reported, S.TrueDos, S.Predictable;
    SamePoint(p, el, x, n, k, cs(k), bases(k));
    SamePoint(p, el, Shift(x, h, v), n, k, cs(k), bases(k));
    PotentialsMove(p, el, x, v, n, k, bases(k), h);
    hide PointOf, S.Moved, Potentials;
  }

  lemma SamePoint(p: Params, el: Element, x: seq<real>, n: nat, k: nat, c: S.Carrier, base: S.Point)
    requires Fits(el, x) && n < el.nNodes && k < |el.dofs| && S.Predictable(c, base)
    ensures var pots := Potentials(p, el, x, n);
      base.(fermi := pots[k], phi := pots[el.u]) == PointOf(p, el, x, n, k, base)
    ensures S.Predictable(c, PointOf(p, el, x, n, k, base))
  {}

  lemma UnitChargeMove(c: S.Carrier, q: real, slope: real, phi0: real, a: real, b: real, vf: real, vu: real, drho: real)
    requires q == c.charge && (q == 1.0 || q == -1.0) && vf == phi0 * a && vu == phi0 * b && drho == -Product(q, slope)
    ensures q * Product(slope, S.LevelMove(c, vf, vu)) == drho * phi0 * (a - b)
  {
    assert slope * (phi0 * b - phi0 * a) == -(slope * phi0 * (a - b));
  }

  /** With carriers of unit charge the charge density moves as the Jacobian assumes. */
  lemma UnitChargesMeetCharge(p: Params, el: Element, x: seq<real>, v: seq<real>, n: nat, cs: nat -> S.Carrier,
                              bases: nat -> S.Point, fixed: real)
    requires Fits(el, x) && |v| == |x| && n < el.nNodes && Ready(el, cs, bases)
    requires ReportsCharge(el, n, cs, bases, fixed)
    ensures HasDeriv(RhoAlong(p, el, x, v, n), Sum(ChargeMove(p, el, x, v, n), |el.dofs|))
  {
    hide HasDeriv, ChargeMove, ChargesAt, Sum, S.Predictable, S.TrueDos;
    var f := ChargeCurves(p, el, x, v, n, cs, bases);
    forall k: nat | k < |el.dofs| ensures HasDeriv(f(k), ChargeMove(p, el, x, v, n)(k)) {
      ChargeCurveMoves(p, el, x, v, n, cs, bases, fixed, k);
      DerivSame(ChargeCurve(p, el, x, v, n, cs, bases, k), f(k), ChargeMove(p, el, x, v, n)(k));
    }
    var total, rest := PartialSum(f, |el.dofs|), Constant(fixed);
    DerivSumOf(f, ChargeMove(p, el, x, v, n), |el.dofs|, total);
    DerivConst(rest, fixed);
    forall h: Arg ensures RhoAlong(p, el, x, v, n)(h) == total(h) + rest(h) {
      var pots := Potentials(p, el, Shift(x, h, v), n);
      assert Local(p, el, Shift(x, h, v), n) == el.model(n, pots);
      SumEqual(ValuesAt(f, h), ChargesAt(el, cs, bases, pots), |el.dofs|);
    }
    hide RhoAlong;
    DerivSum(total, Sum(ChargeMove(p, el, x, v, n), |el.dofs|), rest, 0.0, RhoAlong(p, el, x, v, n),
             Sum(ChargeMove(p, el, x, v, n), |el.dofs|));
  }

  // ---------------------------------------------------------------------------------------
  // Recombination

  /** Block k of the element is carrier k, the last block the electric potential; the node's rates are the
      net rates of recombination models that create no charge. Then recombination creates none. */
  lemma NetRatesMeetKirchhoff(p: Params, el: Element, x: seq<real>, n: nat, count: nat, models: seq<R.Model>,
                              q: nat -> real, rate: seq<real>)
    requires Fits(el, x) && n < el.nNodes && |el.dofs| == count + 1 && el.u == count == |rate|
    requires forall k: nat :: k < count ==> q(k) == Signed(el.positive[k], 1.0) && Local(p, el, x, n).rate(k) == rate[k]
    requires forall k :: 0 <= k < |models| ==>
      R.ValidModel(count, models[k]) && R.ModelCharge(count, models[k], q) == 0.0
    requires R.Rates(rate, Flat(R.RateAdds(count, models), |models|))
    ensures Sum(CurrentContinuity.ChargeRate(p, el, x, n), |el.dofs|) == 0.0
  {
    hide R.ModelCharge, R.ValidModel, R.Rates, R.RateAdds, Local, Flat, Sum;
    R.NetRateConservesCharge(count, models, q, rate);
    var f, g := CurrentContinuity.ChargeRate(p, el, x, n), R.Charges(q, rate);
    forall k: nat | k < count ensures f(k) == g(k) { SignedTimes(el.positive[k], q(k), rate[k]); }
    hide CurrentContinuity.ChargeRate, R.Charges, Signed;
    SumEqual(f, g, count);
    NoRateOfPotential(p, el, x, n);
    OneMore(f, count);
  }

  lemma OneMore(f: nat -> real, n: nat)
    ensures Sum(f, n + 1) == Sum(f, n) + f(n)
  {}

  lemma SignedTimes(positive: bool, q: real, r: real)
    requires q == Signed(positive, 1.0)
    ensures q * r == Signed(positive, r)
  {}

  lemma NoRateOfPotential(p: Params, el: Element, x: seq<real>, n: nat)
    requires Fits(el, x) && n < el.nNodes
    ensures CurrentContinuity.ChargeRate(p, el, x, n)(el.u) == 0.0
  {}
}
