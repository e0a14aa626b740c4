/** The slope the equilibrium search divides by is the derivative of the charge density. */
module EquilibriumSlope {
  import opened Calculus
  import opened Forms
  import opened BoxDerivative
  import opened EquilibriumNewton

  function ChargeFrom(q: Charge, x: real): (f: Curve)
    ensures forall h: Arg {:trigger f(h)} :: f(h) == q.At(x + h as real)
  {
    (h: Arg) => q.At(x + h as real)
  }

  function FallOf(q: Charge, x: real): nat -> real {
    (c: nat) => -q.CarrierSlope(x)(c)
  }

  /** Carriers report derivatives with respect to their own potentials, which fall as the Fermi level rises. If
      these are right, the search uses the derivative of the charge density. */
  lemma SlopeIsDerivative(q: Charge, x: real, parts: nat -> Curve, fixed: real)
    requires forall h: Arg :: ChargeFrom(q, x)(h) == Sum(ValuesAt(parts, h), |q.slopes|) + fixed
    requires forall c: nat :: c < |q.slopes| ==> HasDeriv(parts(c), -q.slopes[c](x as Level))
    ensures HasDeriv(ChargeFrom(q, x), q.Slope(x))
  {
    hide HasDeriv, Sum;
    var n := |q.slopes|;
    var total, rest := PartialSum(parts, n), Constant(fixed);
    forall c: nat | c < n ensures HasDeriv(parts(c), FallOf(q, x)(c)) {
      SlopeOf(q, x, c);
    }
    DerivSumOf(parts, FallOf(q, x), n, total);
    DerivConst(rest, fixed);
    SumScale(q.CarrierSlope(x), -1.0, FallOf(q, x), n);
    DerivSum(total, Sum(FallOf(q, x), n), rest, 0.0, ChargeFrom(q, x), q.Slope(x));
  }

  lemma SlopeOf(q: Charge, x: real, c: nat)
    requires c < |q.slopes|
    ensures FallOf(q, x)(c) == -q.slopes[c](x as Level)
  {
    var s := q.CarrierSlope(x);
    assert s(c) == q.slopes[c](x as Level);
    assert FallOf(q, x)(c) == -s(c);
  }
}
