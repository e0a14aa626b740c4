/** Carrier densities, conductivities and their derivatives, with the sign conventions of the
    solver: derivatives are taken with respect to the Fermi level, minus the quasi-Fermi potential. */
module CarrierStatistics {
  import opened Calculus
  import opened Forms

  /** Occupied states and their first and second derivatives. */
  datatype Occupied = Occupied(n: real, d1: real, d2: real)

  /** Density of states: a function of the distance of the Fermi level from the band; the flag
      selects the quantum density where there is one. */
  type Dos = (bool, Arg) -> Occupied

  datatype ConductivityModel = STANDARD | GENERALIZED | CONSTANT

  /** A carrier: charge, statistics, background conductivity per elementary charge. */
  datatype Carrier = Carrier(charge: real, dos: Dos, hasQuantum: bool, model: ConductivityModel, background: real)

  /** Potentials at a point, those of the last solution, mobility and thermal energy. */
  datatype Point = Point(fermi: real, phi: real, solved: bool, oldFermi: real, oldPhi: real, mobility: real, kT: real)

  function SignOf(charge: real): real { if charge > 0.0 then 1.0 else -1.0 }

  /** Argument of the density of states. */
  function Distance(c: Carrier, fermi: real, phi: real): real {
    SignOf(c.charge) * fermi - c.charge * phi
  }

  predicate Corrected(c: Carrier, p: Point) {
    c.hasQuantum && p.solved
  }

  function At(c: Carrier, quantum: bool, x: real): Occupied { c.dos(quantum, x as Arg) }

  /** The predictor scales the classical density with the old ratio of quantum to classical. */
  ghost predicate Predictable(c: Carrier, p: Point) {
    Corrected(c, p) ==> At(c, false, Distance(c, p.oldFermi, p.oldPhi)).n != 0.0
  }

  function Ratio(c: Carrier, p: Point): real
    requires Predictable(c, p)
  {
    if Corrected(c, p) then
      At(c, true, Distance(c, p.oldFermi, p.oldPhi)).n / At(c, false, Distance(c, p.oldFermi, p.oldPhi)).n
    else 1.0
  }

  /** States counted at a point, with the ratio applied. */
  function Counted(c: Carrier, p: Point): Occupied
    requires Predictable(c, p)
  {
    var o, r := At(c, !Corrected(c, p), Distance(c, p.fermi, p.phi)), Ratio(c, p);
    Occupied(o.n * r, o.d1 * r, o.d2 * r)
  }

  datatype Result = Result(density: real, derivative: real, conductivity: real, conductivitySlope: real)

  /** A derivative with respect to the distance, turned into one with respect to the Fermi level. */
  function ByLevel(charge: real, d: real): real { -SignOf(charge) * d }

  /** What a carrier reports at a point; slope is the conductivity derivative kept for constant
      conductivities. */
  function Reported(c: Carrier, p: Point, slope: real): Result
    requires Predictable(c, p)
  {
    var o, q := Counted(c, p), c.charge;
    match c.model
    case STANDARD => Result(o.n, ByLevel(q, o.d1), p.mobility * o.n + c.background, p.mobility * ByLevel(q, o.d1))
    case GENERALIZED =>
      var conductivity := p.mobility * p.kT * o.d1 + c.background;
      Result(o.n, ByLevel(q, o.d1), conductivity, ByLevel(q, Product(p.mobility * p.kT, o.d2)))
    case CONSTANT => Result(o.n, ByLevel(q, o.d1), c.background, slope)
  }

  /** The object that keeps the conductivity; quantum is the flag of its density of states. */
  class CarrierProperties {
    const carrier: Carrier
    var conductivity: real
    var conductivitySlope: real
    var quantum: bool

    constructor (carrier: Carrier)
      ensures this.carrier == carrier && quantum
    {
      this.carrier := carrier;
      conductivity, conductivitySlope, quantum := 0.0, 0.0, true;
    }

    /** Occupied states with the current flag. */
    method Occupation(x: real) returns (o: Occupied)
      ensures o == At(carrier, quantum, x)
    {
      o := carrier.dos(quantum, x as Arg);
    }

    /** Occupied states; the quantum flag is dropped for the predictor and restored. */
    method CountStates(p: Point) returns (o: Occupied)
      requires quantum && Predictable(carrier, p)
      modifies this`quantum
      ensures quantum && o == Counted(carrier, p)
    {
      var c := carrier;
      var sign := SignOf(c.charge);
      var x := sign * p.fermi - c.charge * p.phi;
      var old' := sign * p.oldFermi - c.charge * p.oldPhi;
      assert x == Distance(c, p.fermi, p.phi) && old' == Distance(c, p.oldFermi, p.oldPhi);
      hide At, Distance;
      if c.hasQuantum && p.solved {
        var before := Occupation(old');
        quantum := false;
        var classical := Occupation(old');
        o := Occupation(x);
        var fac := before.n / classical.n;
        assert fac == Ratio(c, p);
        hide Ratio;
        o := Occupied(o.n * fac, o.d1 * fac, o.d2 * fac);
        quantum := true;
      } else {
        o := Occupation(x);
        Unscaled(o);
      }
    }

    /** Density and derivative, and the conductivity that goes with them. */
    method GetDensityAndDerivative(p: Point) returns (density: real, derivative: real)
      requires quantum && Predictable(carrier, p)
      modifies this
      ensures quantum
      ensures Result(density, derivative, conductivity, conductivitySlope)
        == Reported(carrier, p, old(conductivitySlope))
    {
      var c := carrier;
      var sign := SignOf(c.charge);
      var o := CountStates(p);
      hide Counted;
      density, derivative := o.n, -sign * o.d1;
      conductivity := 0.0;
      match c.model {
        case STANDARD =>
          conductivity := p.mobility * density;
          conductivitySlope := p.mobility * derivative;
        case GENERALIZED =>
          var mobility := p.mobility * p.kT;
          SignTwice(c.charge, mobility, o.d1);
          SignMoves(c.charge, mobility, o.d2);
          conductivity := -sign * mobility * derivative;
          conductivitySlope := -sign * mobility * o.d2;
        case CONSTANT =>
      }
      conductivity := conductivity + c.background;
    }
  }

  lemma Unscaled(o: Occupied)
    ensures o == Occupied(o.n * 1.0, o.d1 * 1.0, o.d2 * 1.0)
  {}

  lemma SignTwice(charge: real, m: real, d: real)
    ensures -SignOf(charge) * m * (-SignOf(charge) * d) == m * d
  {}

  lemma SignMoves(charge: real, m: real, d: real)
    ensures -SignOf(charge) * m * d == -SignOf(charge) * (m * d)
  {}

  // ---------------------------------------------------------------------------------------
  // Derivatives along a motion of the potentials

  /** A point on a straight line. */
  function OnLine(x: real, h: Arg, w: real): real { x + h as real * w }

  /** Occupied states along a line, and their slope. */
  function CountAlong(c: Carrier, quantum: bool, x: real, w: real): Curve {
    (h: Arg) => At(c, quantum, OnLine(x, h, w)).n
  }

  function SlopeAlong(c: Carrier, quantum: bool, x: real, w: real): Curve {
    (h: Arg) => At(c, quantum, OnLine(x, h, w)).d1
  }

  /** The density of states reports its own derivatives. */
  ghost predicate TrueDos(c: Carrier) {
    forall q: bool, x: real {:trigger At(c, q, x)} ::
      HasDeriv(CountAlong(c, q, x, 1.0), At(c, q, x).d1) && HasDeriv(SlopeAlong(c, q, x, 1.0), At(c, q, x).d2)
  }

  function Stretched(h: Arg, w: real): Arg { ((h as real) * w) as Arg }

  /** Stretching the argument scales the derivative. */
  lemma DerivStretch(f: Curve, d: real, w: real, g: Curve)
    requires HasDeriv(f, d) && w != 0.0 && forall h: Arg :: g(h) == f(Stretched(h, w))
    ensures HasDeriv(g, Product(d, w))
  {
    var bound, limit := Abs(w), Product(d, w);
    hide Slope;
    forall e: real {:trigger EventuallyNear(Slope(g), limit, e)} | e > 0.0 ensures EventuallyNear(Slope(g), limit, e) {
      var e1 := e / bound;
      assert e1 * bound == e;
      var delta := Radius(Slope(f), d, e1);
      var narrow := delta / bound;
      assert narrow * bound == delta;
      forall h: Arg | h != 0.0 && -narrow < h as real < narrow ensures Near(Slope(g)(h), limit, e) {
        StretchedSlope(f, g, w, h);
        var k := Stretched(h, w);
        StretchedRange(h as real, w, narrow, delta);
        assert Near(Slope(f)(k), d, e1);
        StretchedNear(Slope(f)(k), d, w, e1, e);
      }
      assert NearWithin(Slope(g), limit, e, narrow);
    }
  }

  lemma StretchedSlope(f: Curve, g: Curve, w: real, h: Arg)
    requires w != 0.0 && h != 0.0 && forall k: Arg :: g(k) == f(Stretched(k, w))
    ensures Stretched(h, w) != 0.0
    ensures Slope(g)(h) == Slope(f)(Stretched(h, w)) * w
  {
    var k := Stretched(h, w);
    assert k != 0.0;
    SlopeTimes(f, k);
    assert Stretched(0.0, w) == 0.0;
    var s := Slope(f)(k);
    assert s * ((h as real) * w) == (s * w) * h as real;
    SlopeIs(g, h, s * w);
  }

  lemma StretchedRange(h: real, w: real, narrow: real, delta: real)
    requires w != 0.0 && -narrow < h < narrow && narrow * Abs(w) == delta
    ensures -delta < h * w < delta
  {
    var a := Abs(w);
    Positive(narrow - h, a);
    Positive(narrow + h, a);
    assert (narrow - h) * a == delta - h * a;
    assert (narrow + h) * a == delta + h * a;
    assert h * w == h * a || h * w == -(h * a);
  }

  lemma StretchedNear(s: real, d: real, w: real, e1: real, e: real)
    requires Near(s, d, e1) && e1 * Abs(w) == e
    ensures Near(s * w, d * w, e)
  {
    ScaleNear(w, Abs(w), s, d, if e1 < 0.0 then 0.0 else e1);
    assert s * w == w * s && d * w == w * d && Abs(w) * e1 == e;
  }

  lemma LineStretched(c: Carrier, quantum: bool, x: real, w: real, h: Arg)
    ensures CountAlong(c, quantum, x, w)(h) == CountAlong(c, quantum, x, 1.0)(Stretched(h, w))
    ensures SlopeAlong(c, quantum, x, w)(h) == SlopeAlong(c, quantum, x, 1.0)(Stretched(h, w))
    ensures w == 0.0 ==> OnLine(x, h, w) == x
  {
    assert OnLine(x, h, w) == OnLine(x, Stretched(h, w), 1.0);
    hide At;
  }

  lemma DerivAlong(c: Carrier, quantum: bool, x: real, w: real)
    requires TrueDos(c)
    ensures HasDeriv(CountAlong(c, quantum, x, w), Product(At(c, quantum, x).d1, w))
    ensures HasDeriv(SlopeAlong(c, quantum, x, w), Product(At(c, quantum, x).d2, w))
  {
    var o, f, g := At(c, quantum, x), CountAlong(c, quantum, x, w), SlopeAlong(c, quantum, x, w);
    assert HasDeriv(CountAlong(c, quantum, x, 1.0), o.d1) && HasDeriv(SlopeAlong(c, quantum, x, 1.0), o.d2);
    hide HasDeriv, TrueDos, OnLine, At, Stretched;
    forall h: Arg
      ensures f(h) == CountAlong(c, quantum, x, 1.0)(Stretched(h, w))
      ensures g(h) == SlopeAlong(c, quantum, x, 1.0)(Stretched(h, w))
    {
      LineStretched(c, quantum, x, w, h);
    }
    if w == 0.0 {
      forall h: Arg ensures f(h) == o.n && g(h) == o.d1 { LineStretched(c, quantum, x, w, h); }
      DerivConst(f, o.n);
      DerivConst(g, o.d1);
      assert Product(o.d1, w) == 0.0 && Product(o.d2, w) == 0.0;
    } else {
      hide CountAlong, SlopeAlong, Product;
      DerivStretch(CountAlong(c, quantum, x, 1.0), o.d1, w, f);
      DerivStretch(SlopeAlong(c, quantum, x, 1.0), o.d2, w, g);
    }
  }

  /** Motion of the distance when the quasi-Fermi potential moves with vf and the electric
      potential with vu. */
  function DistanceMove(c: Carrier, vf: real, vu: real): real {
    SignOf(c.charge) * vf - c.charge * vu
  }

  function Moved(p: Point, vf: real, vu: real, h: Arg): Point {
    p.(fermi := p.fermi + h as real * vf, phi := p.phi + h as real * vu)
  }

  lemma DistanceAlong(c: Carrier, p: Point, vf: real, vu: real, h: Arg)
    ensures Distance(c, Moved(p, vf, vu, h).fermi, Moved(p, vf, vu, h).phi)
         == OnLine(Distance(c, p.fermi, p.phi), h, DistanceMove(c, vf, vu))
  {
    var s, q, t := SignOf(c.charge), c.charge, h as real;
    assert s * (p.fermi + t * vf) == s * p.fermi + t * (s * vf);
    assert q * (p.phi + t * vu) == q * p.phi + t * (q * vu);
    assert t * (s * vf - q * vu) == t * (s * vf) - t * (q * vu);
  }

  lemma MovedPredictable(c: Carrier, p: Point, vf: real, vu: real, h: Arg)
    requires Predictable(c, p)
    ensures Predictable(c, Moved(p, vf, vu, h)) && Ratio(c, Moved(p, vf, vu, h)) == Ratio(c, p)
  {}

  /** Counted states along a motion of both potentials. */
  function CountedAt(c: Carrier, p: Point, vf: real, vu: real, h: Arg): Occupied
    requires Predictable(c, p)
  {
    MovedPredictable(c, p, vf, vu, h);
    Counted(c, Moved(p, vf, vu, h))
  }

  function DensityAlong(c: Carrier, p: Point, vf: real, vu: real): Curve
    requires Predictable(c, p)
  {
    (h: Arg) => MovedPredictable(c, p, vf, vu, h); Reported(c, Moved(p, vf, vu, h), 0.0).density
  }

  function ConductivityAlong(c: Carrier, p: Point, vf: real, vu: real): Curve
    requires Predictable(c, p)
  {
    (h: Arg) => MovedPredictable(c, p, vf, vu, h); Reported(c, Moved(p, vf, vu, h), 0.0).conductivity
  }

  lemma CountedOnLine(c: Carrier, p: Point, vf: real, vu: real, h: Arg)
    requires Predictable(c, p)
    ensures Predictable(c, Moved(p, vf, vu, h))
    ensures var o := Counted(c, Moved(p, vf, vu, h));
            var quantum, x, w, r := !Corrected(c, p), Distance(c, p.fermi, p.phi), DistanceMove(c, vf, vu), Ratio(c, p);
            o.n == r * CountAlong(c, quantum, x, w)(h) && o.d1 == r * SlopeAlong(c, quantum, x, w)(h)
  {
    DistanceAlong(c, p, vf, vu, h);
    MovedPredictable(c, p, vf, vu, h);
    hide Distance, Ratio, At, OnLine, DistanceMove;
  }

  /** Movement of the Fermi level relative to the band, as seen by the derivative: a unit of charge
      counts the electric potential once. */
  function LevelMove(c: Carrier, vf: real, vu: real): real {
    Abs(c.charge) * vu - vf
  }

  lemma MoveSigns(c: Carrier, d: real, vf: real, vu: real)
    ensures Product(d, DistanceMove(c, vf, vu)) == Product(ByLevel(c.charge, d), LevelMove(c, vf, vu))
  {
    var s, q := SignOf(c.charge), c.charge;
    assert s * Abs(q) == q;
    assert s * (Abs(q) * vu - vf) == q * vu - s * vf;
    assert -s * d * LevelMove(c, vf, vu) == d * (-(s * LevelMove(c, vf, vu)));
  }

  /** The states counted, along a motion. */
  lemma CountedDerivative(c: Carrier, p: Point, vf: real, vu: real, f: Curve, g: Curve)
    requires Predictable(c, p) && TrueDos(c)
    requires forall h: Arg :: Predictable(c, Moved(p, vf, vu, h))
                              && f(h) == Counted(c, Moved(p, vf, vu, h)).n && g(h) == Counted(c, Moved(p, vf, vu, h)).d1
    ensures HasDeriv(f, Product(Counted(c, p).d1, DistanceMove(c, vf, vu)))
    ensures HasDeriv(g, Product(Counted(c, p).d2, DistanceMove(c, vf, vu)))
  {
    hide HasDeriv, Distance, Ratio, At, DistanceMove, CountAlong, SlopeAlong, Predictable, Product, SignOf, TrueDos;
    var x, w, r, quantum := Distance(c, p.fermi, p.phi), DistanceMove(c, vf, vu), Ratio(c, p), !Corrected(c, p);
    var o := At(c, quantum, x);
    MoveFactor(r, o.d1, w, Counted(c, p).d1);
    MoveFactor(r, o.d2, w, Counted(c, p).d2);
    hide Counted;
    var n, d := CountAlong(c, quantum, x, w), SlopeAlong(c, quantum, x, w);
    forall h: Arg ensures f(h) == r * n(h) && g(h) == r * d(h) {
      CountedOnLine(c, p, vf, vu, h);
    }
    DerivAlong(c, quantum, x, w);
    DerivScale(n, Product(o.d1, w), r, f, Product(Counted(c, p).d1, w));
    DerivScale(d, Product(o.d2, w), r, g, Product(Counted(c, p).d2, w));
  }

  lemma MoveFactor(r: real, d: real, w: real, e: real)
    requires e == d * r
    ensures Product(e, w) == r * Product(d, w)
  {}

  function NAlong(c: Carrier, p: Point, vf: real, vu: real): (f: Curve)
    requires Predictable(c, p)
    ensures forall h: Arg {:trigger f(h)} :: f(h) == CountedAt(c, p, vf, vu, h).n
  {
    (h: Arg) => CountedAt(c, p, vf, vu, h).n
  }

  function DAlong(c: Carrier, p: Point, vf: real, vu: real): (f: Curve)
    requires Predictable(c, p)
    ensures forall h: Arg {:trigger f(h)} :: f(h) == CountedAt(c, p, vf, vu, h).d1
  {
    (h: Arg) => CountedAt(c, p, vf, vu, h).d1
  }

  lemma CountedMoves(c: Carrier, p: Point, vf: real, vu: real)
    requires Predictable(c, p) && TrueDos(c)
    ensures HasDeriv(NAlong(c, p, vf, vu), Product(Counted(c, p).d1, DistanceMove(c, vf, vu)))
    ensures HasDeriv(DAlong(c, p, vf, vu), Product(Counted(c, p).d2, DistanceMove(c, vf, vu)))
  {
    hide HasDeriv, TrueDos, Counted, DistanceMove;
    forall h: Arg ensures Predictable(c, Moved(p, vf, vu, h)) { MovedPredictable(c, p, vf, vu, h); }
    CountedDerivative(c, p, vf, vu, NAlong(c, p, vf, vu), DAlong(c, p, vf, vu));
  }

  /** The reported derivative is the density's along any motion of both potentials. */
  lemma DensityDerivative(c: Carrier, p: Point, vf: real, vu: real)
    requires Predictable(c, p) && TrueDos(c)
    ensures HasDeriv(DensityAlong(c, p, vf, vu), Product(Reported(c, p, 0.0).derivative, LevelMove(c, vf, vu)))
  {
    hide HasDeriv, TrueDos, Counted, DistanceMove, LevelMove, Predictable, Product, ByLevel;
    CountedMoves(c, p, vf, vu);
    MoveSigns(c, Counted(c, p).d1, vf, vu);
    DerivSame(NAlong(c, p, vf, vu), DensityAlong(c, p, vf, vu), Product(Counted(c, p).d1, DistanceMove(c, vf, vu)));
  }

  lemma Affine(f: Curve, d: real, k: real, b: real, g: Curve, e: real)
    requires HasDeriv(f, d) && e == k * d && forall h: Arg :: g(h) == k * f(h) + b
    ensures HasDeriv(g, e)
  {
    hide HasDeriv;
    var s, c := Scaled(k, f), Constant(b);
    DerivScale(f, d, k, s, e);
    DerivConst(c, b);
    DerivSum(s, e, c, 0.0, g, e);
  }

  /** So is the reported conductivity derivative, in both models of the conductivity. */
  lemma ConductivityDerivative(c: Carrier, p: Point, vf: real, vu: real)
    requires Predictable(c, p) && TrueDos(c) && !c.model.CONSTANT?
    ensures HasDeriv(ConductivityAlong(c, p, vf, vu),
      Product(Reported(c, p, 0.0).conductivitySlope, LevelMove(c, vf, vu)))
  {
    hide HasDeriv, TrueDos, Counted, DistanceMove, LevelMove, Predictable, Product, ByLevel;
    CountedMoves(c, p, vf, vu);
    var o, w, l := Counted(c, p), DistanceMove(c, vf, vu), LevelMove(c, vf, vu);
    var slope, g := Reported(c, p, 0.0).conductivitySlope, ConductivityAlong(c, p, vf, vu);
    if c.model.STANDARD? {
      MoveSigns(c, o.d1, vf, vu);
      MobilityMoves(p.mobility, ByLevel(c.charge, o.d1), l, slope, Product(o.d1, w));
      StandardAlong(c, p, vf, vu);
      Affine(NAlong(c, p, vf, vu), Product(o.d1, w), p.mobility, c.background, g, Product(slope, l));
    } else {
      GeneralSlope(c, p);
      MoveSigns(c, o.d2, vf, vu);
      GeneralMoves(p.mobility * p.kT, c.charge, o.d2, l, slope, Product(o.d2, w));
      GeneralAlong(c, p, vf, vu);
      Affine(DAlong(c, p, vf, vu), Product(o.d2, w), p.mobility * p.kT, c.background, g, Product(slope, l));
    }
  }

  lemma StandardAlong(c: Carrier, p: Point, vf: real, vu: real)
    requires Predictable(c, p) && c.model.STANDARD?
    ensures forall h: Arg :: ConductivityAlong(c, p, vf, vu)(h) == p.mobility * NAlong(c, p, vf, vu)(h) + c.background
  {
    hide Counted, Predictable;
  }

  lemma GeneralAlong(c: Carrier, p: Point, vf: real, vu: real)
    requires Predictable(c, p) && c.model.GENERALIZED?
    ensures forall h: Arg ::
      ConductivityAlong(c, p, vf, vu)(h) == p.mobility * p.kT * DAlong(c, p, vf, vu)(h) + c.background
  {
    hide Counted, Predictable;
  }

  lemma GeneralSlope(c: Carrier, p: Point)
    requires Predictable(c, p) && c.model.GENERALIZED?
    ensures Reported(c, p, 0.0).conductivitySlope == ByLevel(c.charge, Product(p.mobility * p.kT, Counted(c, p).d2))
  {
    hide Counted;
    var m := p.mobility * p.kT;
    assert Reported(c, p, 0.0).conductivitySlope == ByLevel(c.charge, Product(m, Counted(c, p).d2));
  }

  lemma MobilityMoves(m: real, d: real, l: real, slope: real, moved: real)
    requires slope == m * d && moved == Product(d, l)
    ensures Product(slope, l) == m * moved
  {}

  lemma GeneralMoves(m: real, charge: real, d: real, l: real, slope: real, moved: real)
    requires slope == ByLevel(charge, Product(m, d)) && moved == Product(ByLevel(charge, d), l)
    ensures Product(slope, l) == m * moved
  {
    var s := -SignOf(charge);
    assert s * (m * d) * l == m * (s * d * l);
  }

  /** The Jacobian of the box integration lets both potentials act with the same weight. That is
      what the statistics do exactly for carriers of unit charge. */
  lemma UnitChargesOnly(c: Carrier)
    ensures (forall vf: real, vu: real :: LevelMove(c, vf, vu) == vu - vf) <==> c.charge == 1.0 || c.charge == -1.0
  {
    if c.charge != 1.0 && c.charge != -1.0 {
      assert LevelMove(c, 0.0, 1.0) != 1.0 - 0.0;
    }
  }

  // ---------------------------------------------------------------------------------------
  // What the conventions mean

  /** At the potentials of the last solution the predictor gives the quantum density. */
  lemma PredictorStarts(c: Carrier, p: Point)
    requires Predictable(c, p) && Corrected(c, p) && p.fermi == p.oldFermi && p.phi == p.oldPhi
    ensures Reported(c, p, 0.0).density == At(c, true, Distance(c, p.fermi, p.phi)).n
  {
    var x := Distance(c, p.fermi, p.phi);
    Recovered(At(c, false, x).n, At(c, true, x).n);
  }

  lemma Recovered(a: real, b: real)
    requires a != 0.0
    ensures a * (b / a) == b
  {}

  ghost predicate Rising(c: Carrier, quantum: bool) {
    forall x: real, y: real {:trigger At(c, quantum, x), At(c, quantum, y)} ::
      x < y ==> At(c, quantum, x).n < At(c, quantum, y).n
  }

  /** Positive carriers follow their quasi-Fermi potential and leave rising electric potentials; negative
      carriers do the opposite. */
  lemma DensityFollows(c: Carrier, p: Point, fermi: real, phi: real)
    requires c.charge != 0.0 && Rising(c, true) && !p.solved
    ensures var q := p.(fermi := fermi);
      fermi > p.fermi ==> if c.charge > 0.0 then Reported(c, q, 0.0).density > Reported(c, p, 0.0).density
                          else Reported(c, q, 0.0).density < Reported(c, p, 0.0).density
    ensures var q := p.(phi := phi);
      phi > p.phi ==> if c.charge > 0.0 then Reported(c, q, 0.0).density < Reported(c, p, 0.0).density
                      else Reported(c, q, 0.0).density > Reported(c, p, 0.0).density
  {
    var q, r := p.(fermi := fermi), p.(phi := phi);
    var x, y, z := Distance(c, p.fermi, p.phi), Distance(c, fermi, p.phi), Distance(c, p.fermi, phi);
    if phi > p.phi {
      Ordered(c.charge, p.phi, phi);
    }
    assert Reported(c, p, 0.0).density == At(c, true, x).n * 1.0;
    assert Reported(c, q, 0.0).density == At(c, true, y).n * 1.0;
    assert Reported(c, r, 0.0).density == At(c, true, z).n * 1.0;
  }

  lemma Ordered(k: real, a: real, b: real)
    requires a < b
    ensures k > 0.0 ==> k * a < k * b
    ensures k < 0.0 ==> k * a > k * b
  {
    if k > 0.0 { Positive(k, b - a); }
    if k < 0.0 { Positive(-k, b - a); assert -k * (b - a) == k * a - k * b; }
    assert k * (b - a) == k * b - k * a;
  }

  /** The conductivity is mobility times density on top of the background, in the generalised model exactly if
      the statistics are Boltzmann's there. */
  lemma ConductivityIs(c: Carrier, p: Point)
    requires Predictable(c, p)
    ensures var r := Reported(c, p, 0.0);
      && (c.model.STANDARD? ==> r.conductivity == p.mobility * r.density + c.background)
      && (c.model.GENERALIZED? && p.mobility > 0.0 ==>
            (r.conductivity == p.mobility * r.density + c.background <==> p.kT * Counted(c, p).d1 == r.density))
      && (c.model.CONSTANT? ==> r.conductivity == c.background)
  {
    var o := Counted(c, p);
    var a := p.kT * o.d1;
    assert p.mobility * p.kT * o.d1 == p.mobility * a;
    if p.mobility > 0.0 { SameFactor(p.mobility, a, o.n); }
  }

  lemma SameFactor(k: real, a: real, b: real)
    requires k > 0.0
    ensures k * a == k * b <==> a == b
  {
    if a < b { Ordered(k, a, b); }
    if b < a { Ordered(k, b, a); }
  }
}
