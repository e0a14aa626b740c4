/** The carrier flux across one edge of the box-integration mesh, in its two
    discretisations, together with the derivative entries the assembly writes. */
module EdgeFlux {
  import opened Calculus
  import opened Exponential

  datatype Value = Value(val: real, der: real)

  /** Bernoulli function x/(exp(x)-1) and its derivative, linear for |x| <= 1e-4. */
  function Bernoulli(ex: ExpFun, x: real): Value
    requires IsExp(ex)
  {
    if Abs(x) > 0.0001 then
      ExpSign(ex, x);
      var e := Exp(ex, x);
      var f := 1.0 / (e - 1.0);
      Value(x * f, f * (1.0 - x * e * f))
    else
      Value(1.0 - 0.5 * x, -0.5)
  }

  /** What the non-linear branch computes, without division. */
  lemma BernoulliFraction(ex: ExpFun, x: real) returns (e: real, f: real)
    requires IsExp(ex) && Abs(x) > 0.0001
    ensures e == Exp(ex, x) && e > 0.0 && f * (e - 1.0) == 1.0
    ensures Bernoulli(ex, x) == Value(x * f, f * (1.0 - x * e * f))
  {
    ExpSign(ex, x);
    ExpPositive(ex, x);
    e := Exp(ex, x);
    f := 1.0 / (e - 1.0);
  }

  lemma BernoulliPositive(ex: ExpFun, x: real)
    requires IsExp(ex)
    ensures Bernoulli(ex, x).val > 0.0
  {
    if Abs(x) > 0.0001 {
      var e, f := BernoulliFraction(ex, x);
      ExpSign(ex, x);
      if x > 0.0 {
        SameSign(f, e - 1.0);
        Positive(x, f);
      } else {
        SameSign(-f, 1.0 - e);
        assert (-f) * (1.0 - e) == f * (e - 1.0);
        Positive(-x, -f);
        assert (-x) * (-f) == x * f;
      }
    }
  }

  lemma SameSign(a: real, b: real)
    requires a * b == 1.0 && b > 0.0
    ensures a > 0.0
  {}

  /** B(-x) = x + B(x) in every branch: the assembly forms B(-x) this way. */
  lemma BernoulliMirror(ex: ExpFun, x: real)
    requires IsExp(ex)
    ensures Bernoulli(ex, -x).val == x + Bernoulli(ex, x).val
  {
    if Abs(x) > 0.0001 {
      var e, f := BernoulliFraction(ex, x);
      var e', f' := BernoulliFraction(ex, -x);
      ExpInverse(ex, x);
      MirrorAlgebra(x, e, f, e', f');
    }
  }

  lemma MirrorAlgebra(x: real, e: real, f: real, e': real, f': real)
    requires e * e' == 1.0 && f * (e - 1.0) == 1.0 && f' * (e' - 1.0) == 1.0
    ensures -f' == 1.0 + f && (-x) * f' == x + x * f
    ensures (-x) * f' == e * (x * f)
  {}

  /** B(-x) = exp(x) * B(x) outside the linear branch. */
  lemma BernoulliReflect(ex: ExpFun, x: real)
    requires IsExp(ex) && Abs(x) > 0.0001
    ensures Bernoulli(ex, -x).val == Exp(ex, x) * Bernoulli(ex, x).val
  {
    var e, f := BernoulliFraction(ex, x);
    var e', f' := BernoulliFraction(ex, -x);
    ExpInverse(ex, x);
    MirrorAlgebra(x, e, f, e', f');
  }

  /** The derivative component is the derivative of the value component, away from |x| = 1e-4. */
  lemma DerivBernoulli(ex: ExpFun, f: Curve, df: real, p: Curve, d: real)
    requires IsExp(ex) && HasDeriv(f, df) && Abs(f(0.0)) != 0.0001
    requires d == Bernoulli(ex, f(0.0)).der * df
    requires forall h: Arg {:trigger p(h)} :: p(h) == Bernoulli(ex, f(h)).val
    ensures HasDeriv(p, d)
  {
    var radius := SameSide(f, df, 0.0001);
    if Abs(f(0.0)) > 0.0001 {
      DerivFraction(ex, f, df, p, d, radius);
    } else {
      var one := Constant(1.0);
      var half := Scaled(0.5, f);
      var line := Minus(one, half);
      DerivConst(one, 1.0);
      DerivScale(f, df, 0.5, half, 0.5 * df);
      DerivDiff(one, 0.0, half, 0.5 * df, line, d);
      DerivLocal(line, p, d, radius);
    }
  }

  /** A differentiable curve stays on its side of a threshold it does not start on. */
  lemma SameSide(f: Curve, df: real, limit: real) returns (radius: real)
    requires HasDeriv(f, df) && limit > 0.0 && Abs(f(0.0)) != limit
    ensures radius > 0.0
    ensures forall h: Arg :: -radius < h as real < radius ==> (Abs(f(h)) > limit <==> Abs(f(0.0)) > limit)
  {
    DerivContinuous(f, df);
    var gap := Abs(Abs(f(0.0)) - limit) / 2.0;
    radius := Radius(f, f(0.0), gap);
    forall h: Arg | -radius < h as real < radius
      ensures Abs(f(h)) > limit <==> Abs(f(0.0)) > limit
    {
      assert h != 0.0 ==> Near(f(h), f(0.0), gap);
    }
  }

  lemma DerivFraction(ex: ExpFun, f: Curve, df: real, p: Curve, d: real, radius: real)
    requires IsExp(ex) && HasDeriv(f, df) && Abs(f(0.0)) > 0.0001 && radius > 0.0
    requires forall h: Arg :: -radius < h as real < radius ==> Abs(f(h)) > 0.0001
    requires d == Bernoulli(ex, f(0.0)).der * df
    requires forall h: Arg {:trigger p(h)} :: p(h) == Bernoulli(ex, f(h)).val
    ensures HasDeriv(p, d)
  {
    var e, r0 := BernoulliFraction(ex, f(0.0));
    var den := DerivDenominator(ex, f, df, e * df);
    var inv, frac := DerivQuotient(f, df, den, e, r0, d);
    forall h: Arg | -radius < h as real < radius ensures p(h) == frac(h) {
      FractionAt(ex, f(h), den(h), inv(h));
    }
    DerivLocal(frac, p, d, radius);
  }

  lemma DerivDenominator(ex: ExpFun, f: Curve, df: real, d: real) returns (den: Curve)
    requires IsExp(ex) && HasDeriv(f, df) && d == Exp(ex, f(0.0)) * df
    ensures HasDeriv(den, d)
    ensures forall h: Arg {:trigger den(h)} :: den(h) == Exp(ex, f(h)) - 1.0
  {
    var one := Constant(1.0);
    var up := After(ex, f);
    den := Minus(up, one);
    DerivExp(ex, f, df, up, d);
    DerivConst(one, 1.0);
    DerivDiff(up, d, one, 0.0, den, d);
  }

  lemma DerivQuotient(f: Curve, df: real, den: Curve, e: real, r: real, d: real) returns (inv: Curve, frac: Curve)
    requires HasDeriv(f, df) && HasDeriv(den, e * df) && r * den(0.0) == 1.0
    requires d == (r * (1.0 - f(0.0) * e * r)) * df
    ensures inv == Inverse(den) && frac == Times(f, inv) && HasDeriv(frac, d)
  {
    inv := Inverse(den);
    frac := Times(f, inv);
    InverseUnique(inv(0.0), r, den(0.0));
    var de := e * df;
    var dr := -(r * (de * r));
    DerivReciprocal(den, de, inv, dr);
    FractionAlgebra(f(0.0), df, e, r, de, dr, d);
    DerivProduct(f, df, inv, dr, frac, d);
  }

  lemma FractionAlgebra(x: real, df: real, e: real, r: real, de: real, dr: real, d: real)
    requires de == e * df && dr == -(r * (de * r)) && d == (r * (1.0 - x * e * r)) * df
    ensures d == df * r + x * dr
  {}

  function Inverse(f: Curve): (r: Curve)
    ensures forall h: Arg {:trigger r(h)} :: f(h) != 0.0 ==> r(h) * f(h) == 1.0
  {
    (h: Arg) => if f(h) == 0.0 then 0.0 else 1.0 / f(h)
  }

  lemma InverseUnique(a: real, b: real, x: real)
    requires a * x == 1.0 && b * x == 1.0
    ensures a == b
  {}

  lemma FractionAt(ex: ExpFun, x: real, den: real, inv: real)
    requires IsExp(ex) && Abs(x) > 0.0001
    requires den == Exp(ex, x) - 1.0 && (den != 0.0 ==> inv * den == 1.0)
    ensures Bernoulli(ex, x).val == x * inv
  {
    var e, f := BernoulliFraction(ex, x);
    InverseUnique(inv, f, den);
  }

  // ---------------------------------------------------------------------------------------
  // The two fluxes

  datatype Scheme = BIM | BIMSG

  /** Multiplication by a charge sign. */
  function Signed(positive: bool, x: real): real {
    if positive then x else -x
  }

  /** Everything one edge contributes for one carrier. Index 1 and 2 are the two ends; c are
      the conductivities, p the electric and q the quasi-Fermi potentials (all scaled); positive
      tells the sign of the carrier charge. */
  datatype Edge1 = Edge1(area: real, len: real, positive: bool, scale: real,
                         c1: real, c2: real, p1: real, p2: real, q1: real, q2: real)
  {
    predicate Geometric() {
      area >= 0.0 && len > 0.0 && scale > 0.0
    }

    /** The potential drop along the edge with the sign the carrier sees. */
    function Drop(): real { Signed(!positive, p1 - p2) }

    /** The same for the quasi-Fermi potential. */
    function FermiDrop(): real { Signed(!positive, q1 - q2) }
  }

  /** 1 - exp(a), linear for |a| <= 0.1. */
  function Left(ex: ExpFun, a: real): Value {
    if Abs(a) > 0.1 then Value(1.0 - Exp(ex, a), -Exp(ex, a)) else Value(-a, -1.0)
  }

  /** exp(-a) - 1, linear for |a| <= 0.1. */
  function Right(ex: ExpFun, a: real): Value {
    if Abs(a) > 0.1 then Value(Exp(ex, -a) - 1.0, -Exp(ex, -a)) else Value(-a, -1.0)
  }

  function Coefficient(s: Edge1): real
    requires s.Geometric()
  {
    s.area / s.len / s.scale
  }

  /** The factors of the two-sided flux and their slopes: Bernoulli factors of both ends with
      respect to the potential drop, exponential factors with respect to the quasi-Fermi drop. */
  datatype Parts = Parts(b1: Value, b2: Value, l: Value, r: Value)

  function PartsSG(ex: ExpFun, s: Edge1): Parts
    requires IsExp(ex)
  {
    var ber, l, r := Bernoulli(ex, s.Drop()), Left(ex, s.FermiDrop()), Right(ex, s.FermiDrop());
    var db, sg := Signed(!s.positive, ber.der), Signed(!s.positive, 1.0);
    Parts(Value(ber.val, db), Value(s.Drop() + ber.val, sg + db),
          Value(l.val, Signed(!s.positive, l.der)), Value(r.val, Signed(!s.positive, r.der)))
  }

  function OneSided(c: real, b: real, f: real): real {
    c * (b * f)
  }

  function Averaged(k: real, e1: real, e2: real): real {
    0.5 * (k * e1 + k * e2)
  }

  function HalfCoefficient(s: Edge1): real
    requires s.Geometric()
  {
    0.5 * Signed(s.positive, Coefficient(s))
  }

  /** Averaged two-sided Scharfetter-Gummel flux. */
  function FluxSG(ex: ExpFun, s: Edge1): real
    requires IsExp(ex) && s.Geometric()
  {
    var g, coeff := PartsSG(ex, s), Signed(s.positive, Coefficient(s));
    Averaged(coeff, OneSided(s.c1, g.b1.val, g.l.val), OneSided(s.c2, g.b2.val, g.r.val))
  }

  /** Flux with the arithmetic mean of the end conductivities. */
  function FluxMean(s: Edge1): real
    requires s.Geometric()
  {
    Coefficient(s) * (0.5 * (s.c1 + s.c2) * (s.q1 - s.q2))
  }

  function Flux(ex: ExpFun, scheme: Scheme, s: Edge1): real
    requires IsExp(ex) && s.Geometric()
  {
    if scheme == BIM then FluxMean(s) else FluxSG(ex, s)
  }

  // ---------------------------------------------------------------------------------------
  // The flux runs down the quasi-Fermi potential

  lemma SideSigns(ex: ExpFun, a: real)
    requires IsExp(ex)
    ensures a > 0.0 ==> Left(ex, a).val < 0.0 && Right(ex, a).val < 0.0
    ensures a < 0.0 ==> Left(ex, a).val > 0.0 && Right(ex, a).val > 0.0
    ensures a == 0.0 ==> Left(ex, a).val == 0.0 == Right(ex, a).val
  {
    ExpSign(ex, a);
    ExpSign(ex, -a);
  }

  lemma CoefficientSign(s: Edge1)
    requires s.Geometric()
    ensures Coefficient(s) >= 0.0
    ensures s.area > 0.0 ==> Coefficient(s) > 0.0
  {}

  /** Where the dual face vanishes nothing flows. */
  lemma NoFaceNoFlux(ex: ExpFun, scheme: Scheme, s: Edge1)
    requires IsExp(ex) && s.Geometric() && s.area == 0.0
    ensures Flux(ex, scheme, s) == 0.0
  {}

  /** For non-negative conductivities the flux never runs against the drop of the quasi-Fermi
      potential; it vanishes with the drop, and only then on a conducting edge. */
  lemma FluxSign(ex: ExpFun, scheme: Scheme, s: Edge1)
    requires IsExp(ex) && s.Geometric() && s.c1 >= 0.0 && s.c2 >= 0.0
    ensures s.q1 >= s.q2 ==> Flux(ex, scheme, s) >= 0.0
    ensures s.q1 <= s.q2 ==> Flux(ex, scheme, s) <= 0.0
    ensures s.area > 0.0 && s.c1 > 0.0 && s.c2 > 0.0 && s.q1 > s.q2 ==> Flux(ex, scheme, s) > 0.0
    ensures s.area > 0.0 && s.c1 > 0.0 && s.c2 > 0.0 && s.q1 < s.q2 ==> Flux(ex, scheme, s) < 0.0
  {
    if scheme == BIM {
      var k, f := Coefficient(s), FluxMean(s);
      CoefficientSign(s);
      MeanFluxSign(k, 0.5 * (s.c1 + s.c2), s.q1 - s.q2, f);
    } else {
      SGFluxSign(ex, s);
    }
  }

  lemma MeanFluxSign(k: real, m: real, drop: real, f: real)
    requires k >= 0.0 && m >= 0.0 && f == k * (m * drop)
    ensures drop >= 0.0 ==> f >= 0.0
    ensures drop <= 0.0 ==> f <= 0.0
    ensures k > 0.0 && m > 0.0 && drop > 0.0 ==> f > 0.0
    ensures k > 0.0 && m > 0.0 && drop < 0.0 ==> f < 0.0
  {}

  lemma SGFluxSign(ex: ExpFun, s: Edge1)
    requires IsExp(ex) && s.Geometric() && s.c1 >= 0.0 && s.c2 >= 0.0
    ensures s.q1 >= s.q2 ==> FluxSG(ex, s) >= 0.0
    ensures s.q1 <= s.q2 ==> FluxSG(ex, s) <= 0.0
    ensures s.area > 0.0 && s.c1 > 0.0 && s.c2 > 0.0 && s.q1 > s.q2 ==> FluxSG(ex, s) > 0.0
    ensures s.area > 0.0 && s.c1 > 0.0 && s.c2 > 0.0 && s.q1 < s.q2 ==> FluxSG(ex, s) < 0.0
  {
    var g := PartsSG(ex, s);
    var k, drop := Coefficient(s), s.q1 - s.q2;
    CoefficientSign(s);
    PartsSign(ex, s);
    hide PartsSG, Coefficient, OneSided, Averaged;
    var x1, x2 := OneSided(s.c1, g.b1.val, g.l.val), OneSided(s.c2, g.b2.val, g.r.val);
    HalfSign(k, s.positive, s.c1, g.b1.val, g.l.val, drop, x1);
    HalfSign(k, s.positive, s.c2, g.b2.val, g.r.val, drop, x2);
    AveragedSign(Signed(s.positive, k), x1, x2);
  }

  lemma AveragedSign(k: real, x: real, y: real)
    ensures k * x >= 0.0 && k * y >= 0.0 ==> Averaged(k, x, y) >= 0.0
    ensures k * x <= 0.0 && k * y <= 0.0 ==> Averaged(k, x, y) <= 0.0
    ensures k * x > 0.0 && k * y > 0.0 ==> Averaged(k, x, y) > 0.0
    ensures k * x < 0.0 && k * y < 0.0 ==> Averaged(k, x, y) < 0.0
  {}

  lemma PartsSign(ex: ExpFun, s: Edge1)
    requires IsExp(ex) && s.Geometric()
    ensures var g, d := PartsSG(ex, s), Signed(s.positive, s.q1 - s.q2);
      && g.b1.val > 0.0 && g.b2.val > 0.0
      && (d > 0.0 ==> g.l.val > 0.0 && g.r.val > 0.0)
      && (d < 0.0 ==> g.l.val < 0.0 && g.r.val < 0.0)
      && (d == 0.0 ==> g.l.val == 0.0 == g.r.val)
  {
    hide Bernoulli, Left, Right;
    BernoulliPositive(ex, s.Drop());
    BernoulliPositive(ex, -s.Drop());
    BernoulliMirror(ex, s.Drop());
    SideSigns(ex, s.FermiDrop());
  }

  lemma HalfSign(k: real, positive: bool, c: real, b: real, f: real, drop: real, x: real)
    requires k >= 0.0 && c >= 0.0 && b > 0.0 && x == OneSided(c, b, f)
    requires Signed(positive, drop) > 0.0 ==> f > 0.0
    requires Signed(positive, drop) < 0.0 ==> f < 0.0
    requires Signed(positive, drop) == 0.0 ==> f == 0.0
    ensures drop >= 0.0 ==> Signed(positive, k) * x >= 0.0
    ensures drop <= 0.0 ==> Signed(positive, k) * x <= 0.0
    ensures k > 0.0 && c > 0.0 && drop > 0.0 ==> Signed(positive, k) * x > 0.0
    ensures k > 0.0 && c > 0.0 && drop < 0.0 ==> Signed(positive, k) * x < 0.0
  {}

  // ---------------------------------------------------------------------------------------
  // Agreement with the classical Scharfetter-Gummel flux

  /** The textbook flux between densities c1 and c2, with x the potential difference seen by
      the carrier: c1 B(x) - c2 B(-x), positive towards end 2 for negative charge. */
  function Classical(ex: ExpFun, s: Edge1): real
    requires IsExp(ex) && s.Geometric()
  {
    var x := s.Drop();
    Signed(s.positive, Coefficient(s)) * (s.c1 * Bernoulli(ex, x).val - s.c2 * Bernoulli(ex, -x).val)
  }

  /** Boltzmann statistics: the conductivities at both ends are one exponential law in the
      difference of quasi-Fermi and electric potential. */
  ghost predicate Boltzmann(ex: ExpFun, s: Edge1) {
    s.c2 == s.c1 * Exp(ex, s.FermiDrop() - s.Drop())
  }

  /** Outside the two linear branches the averaged flux is the classical one, for either sign
      of the carrier charge. */
  lemma FluxIsClassical(ex: ExpFun, s: Edge1)
    requires IsExp(ex) && s.Geometric() && Boltzmann(ex, s)
    requires Abs(s.p1 - s.p2) > 0.0001 && Abs(s.q1 - s.q2) > 0.1
    ensures FluxSG(ex, s) == Classical(ex, s)
  {
    hide Bernoulli, Left, Right, Coefficient;
    var x, a := s.Drop(), s.FermiDrop();
    var bp := Bernoulli(ex, x).val;
    var bn := x + bp;
    var ep := Exp(ex, x);
    assert Bernoulli(ex, -x).val == bn by { BernoulliMirror(ex, x); }
    assert bn == ep * bp by {
      BernoulliMirror(ex, x);
      BernoulliReflect(ex, x);
    }
    var l, r := Left(ex, a).val, Right(ex, a).val;
    TwoHalves(ex, s.c1, s.c2, bp, bn, x, a);
    AverageOfEqual(Signed(s.positive, Coefficient(s)), s.c1 * (bp * l), s.c2 * (bn * r), s.c1 * bp - s.c2 * bn);
  }

  /** Each one-sided term alone already equals the classical difference. */
  lemma TwoHalves(ex: ExpFun, c1: real, c2: real, b: real, bn: real, x: real, a: real)
    requires IsExp(ex) && c2 == c1 * Exp(ex, a - x) && bn == Exp(ex, x) * b && Abs(a) > 0.1
    ensures c1 * (b * Left(ex, a).val) == c1 * b - c2 * bn
    ensures c2 * (bn * Right(ex, a).val) == c1 * b - c2 * bn
  {
    var ep, en, ea, em := Exp(ex, x), Exp(ex, -x), Exp(ex, a), Exp(ex, -a);
    assert Additive(ex, -x, a);
    assert -x + a == a - x;
    ExpInverse(ex, x);
    ExpInverse(ex, a);
    ClassicalAlgebra(c1, c2, b, ep, en, ea, em);
  }

  lemma ClassicalAlgebra(c1: real, c2: real, b: real, ep: real, en: real, ea: real, em: real)
    requires c2 == c1 * (en * ea) && ep * en == 1.0 && ea * em == 1.0
    ensures c1 * (b * (1.0 - ea)) == c1 * b - c2 * (ep * b)
    ensures c2 * ((ep * b) * (em - 1.0)) == c1 * b - c2 * (ep * b)
  {}

  lemma AverageOfEqual(k: real, x: real, y: real, v: real)
    requires x == v && y == v
    ensures 0.5 * (k * x + k * y) == k * v
  {}

  // ---------------------------------------------------------------------------------------
  // Jacobian entries of one edge

  /** Derivatives the models supply at the two ends: of the conductivity with respect to the
      Fermi level (s) and, projected on the edge, to the potential gradient (g). */
  datatype Slopes1 = Slopes1(phi0: real, s1: real, s2: real, g1: real, g2: real)
  {
    /** Change of the conductivity at an end when the scaled potentials move with v. */
    function Moved1(v: Row1): real { Own1() * (v.q1 - v.p1) }

    function Moved2(v: Row1): real { Own2() * (v.q2 - v.p2) }

    /** Derivatives with respect to the scaled quasi-Fermi potential, which is minus the level. */
    function Own1(): real { -s1 * phi0 }

    function Own2(): real { -s2 * phi0 }
  }

  /** Entries of the row of end 1: columns q1, q2 (quasi-Fermi) and p1, p2 (electric). The row
      of end 2 holds their negatives. */
  datatype Row1 = Row1(q1: real, q2: real, p1: real, p2: real)

  function RowMean(s: Edge1, m: Slopes1): Row1
    requires s.Geometric()
  {
    var k := Coefficient(s);
    var mean := k * (0.5 * (s.c1 + s.c2));
    var w := 0.5 * (k * (m.phi0 * (s.q1 - s.q2)));
    Row1(mean - w * m.s1, -mean - w * m.s2, w * m.s1, w * m.s2)
  }

  function RowSG(ex: ExpFun, s: Edge1, m: Slopes1): Row1
    requires IsExp(ex) && s.Geometric()
  {
    var g, half := PartsSG(ex, s), HalfCoefficient(s);
    var e1 := End(half, g.b1, g.l, s.c1, m.Own1());
    var e2 := End(half, g.b2, g.r, s.c2, m.Own2());
    var tmp := GradientTerm(half, g, m, s.len);
    Row1(e1.own + e1.drop + e2.drop, e2.own - e1.drop - e2.drop,
         e1.field + e2.field - e1.own - tmp, -e1.field - e2.field - e2.own + tmp)
  }

  /** Dependence of the mobilities on the potential gradient along the edge. */
  function GradientTerm(half: real, g: Parts, m: Slopes1, len: real): real
    requires len > 0.0
  {
    half * (g.b1.val * g.l.val * m.g1 + g.b2.val * g.r.val * m.g2) / len
  }

  /** Derivatives of the one-sided term half*c*b*f: through the conductivity of its own end,
      through the quasi-Fermi drop and through the potential drop. */
  datatype EndSlopes = EndSlopes(own: real, drop: real, field: real)

  function End(half: real, b: Value, f: Value, c: real, dc: real): EndSlopes {
    EndSlopes(half * (b.val * (dc * f.val)), half * (b.val * (c * f.der)), half * (f.val * (b.der * c)))
  }

  function Row(ex: ExpFun, scheme: Scheme, s: Edge1, m: Slopes1): Row1
    requires IsExp(ex) && s.Geometric()
  {
    if scheme == BIM then RowMean(s, m) else RowSG(ex, s, m)
  }

  /** Shifting the electric and the quasi-Fermi potential together changes no edge flux. */
  lemma RowGauge(ex: ExpFun, scheme: Scheme, s: Edge1, m: Slopes1)
    requires IsExp(ex) && s.Geometric()
    ensures var r := Row(ex, scheme, s, m); r.q1 + r.q2 + r.p1 + r.p2 == 0.0
  {}

  /** The curves an edge sees when the potentials move. */
  datatype EdgeCurves = EdgeCurves(c1: Curve, c2: Curve, p1: Curve, p2: Curve, q1: Curve, q2: Curve)
  {
    function At(s: Edge1, h: Arg): Edge1 {
      s.(c1 := c1(h), c2 := c2(h), p1 := p1(h), p2 := p2(h), q1 := q1(h), q2 := q2(h))
    }
  }

  /** The conductivities follow their own end only, through the difference of quasi-Fermi and
      electric potential: a carrier of unit charge with gradient-independent mobility. */
  ghost predicate Moves(cs: EdgeCurves, m: Slopes1, v: Row1) {
    && HasDeriv(cs.q1, v.q1) && HasDeriv(cs.q2, v.q2)
    && HasDeriv(cs.p1, v.p1) && HasDeriv(cs.p2, v.p2)
    && HasDeriv(cs.c1, m.Moved1(v))
    && HasDeriv(cs.c2, m.Moved2(v))
    && m.g1 == 0.0 && m.g2 == 0.0
  }

  function Apply(r: Row1, v: Row1): real {
    r.q1 * v.q1 + r.q2 * v.q2 + r.p1 * v.p1 + r.p2 * v.p2
  }

  /** No branch switch at the state itself. */
  predicate OffThreshold(scheme: Scheme, s: Edge1) {
    scheme == BIMSG ==> Abs(s.p1 - s.p2) != 0.0001 && Abs(s.q1 - s.q2) != 0.1
  }

  lemma DerivMean(s: Edge1, cs: EdgeCurves, m: Slopes1, v: Row1, f: Curve)
    requires s.Geometric() && s == cs.At(s, 0.0) && Moves(cs, m, v)
    requires forall h: Arg {:trigger f(h)} :: f(h) == FluxMean(cs.At(s, h))
    ensures HasDeriv(f, Apply(RowMean(s, m), v))
  {
    var k := Coefficient(s);
    var dc1, dc2 := m.Moved1(v), m.Moved2(v);
    var sum, drop := Plus(cs.c1, cs.c2), Minus(cs.q1, cs.q2);
    var mean := Scaled(0.5, sum);
    var prod := Times(mean, drop);
    DerivSum(cs.c1, dc1, cs.c2, dc2, sum, dc1 + dc2);
    DerivScale(sum, dc1 + dc2, 0.5, mean, 0.5 * (dc1 + dc2));
    DerivDiff(cs.q1, v.q1, cs.q2, v.q2, drop, v.q1 - v.q2);
    var d := 0.5 * (dc1 + dc2) * (s.q1 - s.q2) + (0.5 * (s.c1 + s.c2)) * (v.q1 - v.q2);
    DerivProduct(mean, 0.5 * (dc1 + dc2), drop, v.q1 - v.q2, prod, d);
    MeanAlgebra(k, s, m, v, dc1, dc2, d);
    forall h: Arg ensures f(h) == k * prod(h) {
      assert Coefficient(cs.At(s, h)) == k;
    }
    DerivScale(prod, d, k, f, Apply(RowMean(s, m), v));
  }

  lemma MeanAlgebra(k: real, s: Edge1, m: Slopes1, v: Row1, dc1: real, dc2: real, d: real)
    requires s.Geometric() && k == Coefficient(s)
    requires dc1 == m.Moved1(v) && dc2 == m.Moved2(v)
    requires d == 0.5 * (dc1 + dc2) * (s.q1 - s.q2) + (0.5 * (s.c1 + s.c2)) * (v.q1 - v.q2)
    ensures k * d == Apply(RowMean(s, m), v)
  {}

  lemma DerivLeft(ex: ExpFun, f: Curve, df: real, p: Curve, d: real)
    requires IsExp(ex) && HasDeriv(f, df) && Abs(f(0.0)) != 0.1
    requires d == Left(ex, f(0.0)).der * df
    requires forall h: Arg {:trigger p(h)} :: p(h) == Left(ex, f(h)).val
    ensures HasDeriv(p, d)
  {
    var radius := SameSide(f, df, 0.1);
    if Abs(f(0.0)) > 0.1 {
      var one, up := Constant(1.0), After(ex, f);
      var g := Minus(one, up);
      var du := Exp(ex, f(0.0)) * df;
      DerivConst(one, 1.0);
      DerivExp(ex, f, df, up, du);
      DerivDiff(one, 0.0, up, du, g, d);
      DerivLocal(g, p, d, radius);
    } else {
      var g := Scaled(-1.0, f);
      DerivScale(f, df, -1.0, g, d);
      DerivLocal(g, p, d, radius);
    }
  }

  lemma DerivRight(ex: ExpFun, f: Curve, df: real, p: Curve, d: real)
    requires IsExp(ex) && HasDeriv(f, df) && Abs(f(0.0)) != 0.1
    requires d == Right(ex, f(0.0)).der * df
    requires forall h: Arg {:trigger p(h)} :: p(h) == Right(ex, f(h)).val
    ensures HasDeriv(p, d)
  {
    var radius := SameSide(f, df, 0.1);
    var neg := Scaled(-1.0, f);
    DerivScale(f, df, -1.0, neg, -df);
    if Abs(f(0.0)) > 0.1 {
      var one, up := Constant(1.0), After(ex, neg);
      var g := Minus(up, one);
      var du := Exp(ex, neg(0.0)) * -df;
      DerivConst(one, 1.0);
      DerivExp(ex, neg, -df, up, du);
      assert neg(0.0) == -f(0.0);
      DerivDiff(up, du, one, 0.0, g, d);
      DerivLocal(g, p, d, radius);
    } else {
      DerivLocal(neg, p, d, radius);
    }
  }

  /** A signed drop along two curves. */
  lemma DerivSigned(positive: bool, f: Curve, df: real, g: Curve, dg: real) returns (a: Curve)
    requires HasDeriv(f, df) && HasDeriv(g, dg)
    ensures HasDeriv(a, Signed(positive, df - dg))
    ensures forall h: Arg {:trigger a(h)} :: a(h) == Signed(positive, f(h) - g(h))
  {
    hide HasDeriv;
    if positive {
      a := Minus(f, g);
      DerivDiff(f, df, g, dg, a, df - dg);
    } else {
      a := Minus(g, f);
      DerivDiff(g, dg, f, df, a, dg - df);
    }
  }

  /** The product c * (b * f) of one end. */
  lemma DerivEnd(c: Curve, dc: real, b: Curve, db: real, f: Curve, df: real, d: real) returns (p: Curve)
    requires HasDeriv(c, dc) && HasDeriv(b, db) && HasDeriv(f, df)
    requires d == dc * (b(0.0) * f(0.0)) + c(0.0) * (db * f(0.0) + b(0.0) * df)
    ensures HasDeriv(p, d)
    ensures forall h: Arg {:trigger p(h)} :: p(h) == OneSided(c(h), b(h), f(h))
  {
    hide HasDeriv;
    var bf := Times(b, f);
    var dbf := db * f(0.0) + b(0.0) * df;
    DerivProduct(b, db, f, df, bf, dbf);
    p := Times(c, bf);
    DerivProduct(c, dc, bf, dbf, p, d);
  }

  function BernoulliAlong(ex: ExpFun, a: Curve): (p: Curve)
    requires IsExp(ex)
    ensures forall h: Arg {:trigger p(h)} :: p(h) == Bernoulli(ex, a(h)).val
  {
    (h: Arg) => Bernoulli(ex, a(h)).val
  }

  function LeftAlong(ex: ExpFun, a: Curve): (p: Curve)
    ensures forall h: Arg {:trigger p(h)} :: p(h) == Left(ex, a(h)).val
  {
    (h: Arg) => Left(ex, a(h)).val
  }

  function RightAlong(ex: ExpFun, a: Curve): (p: Curve)
    ensures forall h: Arg {:trigger p(h)} :: p(h) == Right(ex, a(h)).val
  {
    (h: Arg) => Right(ex, a(h)).val
  }

  /** The four factor curves, each with the slope listed in PartsSG. */
  lemma DerivParts(ex: ExpFun, s: Edge1, cs: EdgeCurves, v: Row1, g: Parts, d: Parts)
      returns (b1: Curve, b2: Curve, l: Curve, r: Curve)
    requires IsExp(ex) && s.Geometric() && s == cs.At(s, 0.0) && OffThreshold(BIMSG, s)
    requires HasDeriv(cs.q1, v.q1) && HasDeriv(cs.q2, v.q2) && HasDeriv(cs.p1, v.p1) && HasDeriv(cs.p2, v.p2)
    requires g == PartsSG(ex, s) && d == Motion(g, v)
    ensures HasDeriv(b1, d.b1.der) && HasDeriv(b2, d.b2.der) && HasDeriv(l, d.l.der) && HasDeriv(r, d.r.der)
    ensures forall h: Arg {:trigger b1(h)} :: b1(h) == PartsSG(ex, cs.At(s, h)).b1.val
    ensures forall h: Arg {:trigger b2(h)} :: b2(h) == PartsSG(ex, cs.At(s, h)).b2.val
    ensures forall h: Arg {:trigger l(h)} :: l(h) == PartsSG(ex, cs.At(s, h)).l.val
    ensures forall h: Arg {:trigger r(h)} :: r(h) == PartsSG(ex, cs.At(s, h)).r.val
  {
    hide Bernoulli, Left, Right, HasDeriv;
    var neg, dp, dq := !s.positive, v.p1 - v.p2, v.q1 - v.q2;
    var arg := DerivSigned(neg, cs.p1, v.p1, cs.p2, v.p2);
    var a := DerivSigned(neg, cs.q1, v.q1, cs.q2, v.q2);
    b1, l, r := BernoulliAlong(ex, arg), LeftAlong(ex, a), RightAlong(ex, a);
    SignedSlope(neg, Bernoulli(ex, s.Drop()).der, dp);
    SignedSlope(neg, Left(ex, s.FermiDrop()).der, dq);
    SignedSlope(neg, Right(ex, s.FermiDrop()).der, dq);
    DerivBernoulli(ex, arg, Signed(neg, dp), b1, d.b1.der);
    DerivLeft(ex, a, Signed(neg, dq), l, d.l.der);
    DerivRight(ex, a, Signed(neg, dq), r, d.r.der);
    b2 := Plus(arg, b1);
    assert d.b2.der == Signed(neg, dp) + d.b1.der;
    DerivSum(arg, Signed(neg, dp), b1, d.b1.der, b2, d.b2.der);
  }

  lemma SignedSlope(positive: bool, der: real, move: real)
    ensures der * Signed(positive, move) == Signed(positive, der) * move
  {}

  /** The slopes of the factors, applied to a motion of the potentials. */
  function Motion(g: Parts, v: Row1): Parts {
    var dp, dq := v.p1 - v.p2, v.q1 - v.q2;
    Parts(g.b1.(der := g.b1.der * dp), g.b2.(der := g.b2.der * dp),
          g.l.(der := g.l.der * dq), g.r.(der := g.r.der * dq))
  }

  /** Product rule for c * (b * f). */
  function EndMotion(c: real, dc: real, b: Value, f: Value): real {
    dc * (b.val * f.val) + c * (b.der * f.val + b.val * f.der)
  }

  lemma DerivSG(ex: ExpFun, s: Edge1, cs: EdgeCurves, m: Slopes1, v: Row1, f: Curve)
    requires IsExp(ex) && s.Geometric() && s == cs.At(s, 0.0) && Moves(cs, m, v)
    requires OffThreshold(BIMSG, s)
    requires forall h: Arg {:trigger f(h)} :: f(h) == FluxSG(ex, cs.At(s, h))
    ensures HasDeriv(f, Apply(RowSG(ex, s, m), v))
  {
    hide HasDeriv, PartsSG, Coefficient, RowSG, Slopes1.Moved1, Slopes1.Moved2, Motion, Apply;
    var g := PartsSG(ex, s);
    var d := Motion(g, v);
    var b1, b2, l, r := DerivParts(ex, s, cs, v, g, d);
    assert cs.At(s, 0.0) == s;
    var d1 := EndMotion(s.c1, m.Moved1(v), Value(g.b1.val, d.b1.der), Value(g.l.val, d.l.der));
    var d2 := EndMotion(s.c2, m.Moved2(v), Value(g.b2.val, d.b2.der), Value(g.r.val, d.r.der));
    var e1 := DerivEnd(cs.c1, m.Moved1(v), b1, d.b1.der, l, d.l.der, d1);
    var e2 := DerivEnd(cs.c2, m.Moved2(v), b2, d.b2.der, r, d.r.der, d2);
    var sum := Plus(e1, e2);
    DerivSum(e1, d1, e2, d2, sum, d1 + d2);
    var k := HalfCoefficient(s);
    SGAlgebra(ex, s, m, v, g, d, d1, d2);
    forall h: Arg ensures f(h) == k * sum(h) {
      SGAlong(ex, s, cs, h, e1(h), e2(h));
    }
    DerivScale(sum, d1 + d2, k, f, Apply(RowSG(ex, s, m), v));
  }

  lemma SGAlong(ex: ExpFun, s: Edge1, cs: EdgeCurves, h: Arg, e1: real, e2: real)
    requires IsExp(ex) && s.Geometric()
    requires e1 == OneSided(cs.c1(h), PartsSG(ex, cs.At(s, h)).b1.val, PartsSG(ex, cs.At(s, h)).l.val)
    requires e2 == OneSided(cs.c2(h), PartsSG(ex, cs.At(s, h)).b2.val, PartsSG(ex, cs.At(s, h)).r.val)
    ensures FluxSG(ex, cs.At(s, h)) == HalfCoefficient(s) * (e1 + e2)
  {
    assert Coefficient(cs.At(s, h)) == Coefficient(s);
    var k := Signed(s.positive, Coefficient(s));
    assert Averaged(k, e1, e2) == 0.5 * k * (e1 + e2) by { hide PartsSG; AveragedFactor(k, e1, e2); }
    hide PartsSG, Coefficient, OneSided, Averaged;
  }

  lemma AveragedFactor(k: real, x: real, y: real)
    ensures Averaged(k, x, y) == 0.5 * k * (x + y)
  {}

  lemma SGAlgebra(ex: ExpFun, s: Edge1, m: Slopes1, v: Row1, g: Parts, d: Parts, d1: real, d2: real)
    requires IsExp(ex) && s.Geometric() && m.g1 == 0.0 && m.g2 == 0.0
    requires g == PartsSG(ex, s) && d == Motion(g, v)
    requires d1 == EndMotion(s.c1, m.Moved1(v), Value(g.b1.val, d.b1.der), Value(g.l.val, d.l.der))
    requires d2 == EndMotion(s.c2, m.Moved2(v), Value(g.b2.val, d.b2.der), Value(g.r.val, d.r.der))
    ensures HalfCoefficient(s) * (d1 + d2) == Apply(RowSG(ex, s, m), v)
  {
    hide PartsSG, HalfCoefficient, Slopes1.Own1, Slopes1.Own2, EndMotion, End;
    var half := HalfCoefficient(s);
    var dp, dq := v.p1 - v.p2, v.q1 - v.q2;
    var k1, k2 := m.Own1(), m.Own2();
    var e1, e2 := End(half, g.b1, g.l, s.c1, k1), End(half, g.b2, g.r, s.c2, k2);
    EndAlgebra(half, g.b1, d.b1.der, g.l, d.l.der, s.c1, k1, m.Moved1(v), v.q1 - v.p1, dq, dp, d1);
    EndAlgebra(half, g.b2, d.b2.der, g.r, d.r.der, s.c2, k2, m.Moved2(v), v.q2 - v.p2, dq, dp, d2);
    RowShape(ex, s, m, e1, e2);
    hide *;
    RowAlgebra(e1, e2, v);
    DistributeOverSum(half, d1, d2);
  }

  lemma DistributeOverSum(k: real, x: real, y: real)
    ensures k * (x + y) == k * x + k * y
  {}

  lemma RowShape(ex: ExpFun, s: Edge1, m: Slopes1, e1: EndSlopes, e2: EndSlopes)
    requires IsExp(ex) && s.Geometric() && m.g1 == 0.0 && m.g2 == 0.0
    requires e1 == End(HalfCoefficient(s), PartsSG(ex, s).b1, PartsSG(ex, s).l, s.c1, m.Own1())
    requires e2 == End(HalfCoefficient(s), PartsSG(ex, s).b2, PartsSG(ex, s).r, s.c2, m.Own2())
    ensures RowSG(ex, s, m) == Row1(e1.own + e1.drop + e2.drop, e2.own - e1.drop - e2.drop,
                                    e1.field + e2.field - e1.own, -e1.field - e2.field - e2.own)
  {}

  lemma EndAlgebra(half: real, b: Value, db: real, f: Value, df: real, c: real, k: real, dc: real,
                   own: real, dq: real, dp: real, d: real)
    requires dc == k * own && db == b.der * dp && df == f.der * dq
    requires d == EndMotion(c, dc, Value(b.val, db), Value(f.val, df))
    ensures var e := End(half, b, f, c, k); half * d == e.own * own + e.drop * dq + e.field * dp
  {}

  lemma RowAlgebra(e1: EndSlopes, e2: EndSlopes, v: Row1)
    ensures Apply(Row1(e1.own + e1.drop + e2.drop, e2.own - e1.drop - e2.drop,
                       e1.field + e2.field - e1.own, -e1.field - e2.field - e2.own), v)
         == e1.own * (v.q1 - v.p1) + e1.drop * (v.q1 - v.q2) + e1.field * (v.p1 - v.p2)
          + e2.own * (v.q2 - v.p2) + e2.drop * (v.q1 - v.q2) + e2.field * (v.p1 - v.p2)
  {}

  /** The entries are the derivative of the flux, in every direction. */
  lemma DerivFlux(ex: ExpFun, scheme: Scheme, s: Edge1, cs: EdgeCurves, m: Slopes1, v: Row1, f: Curve)
    requires IsExp(ex) && s.Geometric() && s == cs.At(s, 0.0) && Moves(cs, m, v)
    requires OffThreshold(scheme, s)
    requires forall h: Arg {:trigger f(h)} :: f(h) == Flux(ex, scheme, cs.At(s, h))
    ensures HasDeriv(f, Apply(Row(ex, scheme, s, m), v))
  {
    hide FluxSG, FluxMean, RowSG, RowMean, HasDeriv, Moves, Apply;
    if scheme == BIM {
      DerivMean(s, cs, m, v, f);
    } else {
      DerivSG(ex, s, cs, m, v, f);
    }
  }
}
