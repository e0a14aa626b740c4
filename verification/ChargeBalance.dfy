/** Charge density at a point and the derivatives kept with it. */
module ChargeBalance {
  import opened Calculus
  import opened Forms

  /** A carrier's charge; mobile dopants count only while they are not all occupied. */
  datatype Species = Species(charge: real, dopant: bool, maximum: real)

  /** Density and derivative with respect to the Fermi level, by carrier. */
  datatype Statistics = Statistics(density: real, derivative: real)

  datatype Fixed = Fixed(donors: real, acceptors: real, electronTraps: real, holeTraps: real)

  /** Charge of one carrier at a given density. */
  function ChargeOf(s: Species, density: real): real {
    if s.dopant then s.charge * Min(density - s.maximum, 0.0) else s.charge * density
  }

  function Charges(species: seq<Species>, density: seq<real>): nat -> real {
    (c: nat) => if c < |species| && c < |density| then ChargeOf(species[c], density[c]) else 0.0
  }

  method CarrierCharge(s: Species, density: real) returns (charge: real)
    ensures charge == ChargeOf(s, density)
  {
    if s.dopant {
      var ionized := density - s.maximum;
      charge := s.charge * Min(ionized, 0.0);
    } else {
      charge := s.charge * density;
    }
  }

  class Properties {
    const species: seq<Species>
    var density: seq<real>
    var derivative: seq<real>
    var chargeDerivative: seq<real>

    ghost predicate Valid()
      reads this
    {
      |density| == |derivative| == |chargeDerivative| == |species|
    }

    constructor (species: seq<Species>)
      ensures Valid() && this.species == species
    {
      this.species := species;
      density, derivative := seq(|species|, _ => 0.0), seq(|species|, _ => 0.0);
      chargeDerivative := seq(|species|, _ => 0.0);
    }

    /** Densities with their derivatives; the charge derivative belongs to the quasi-Fermi potential. */
    method CalculateDensities(values: seq<Statistics>)
      requires Valid() && |values| == |species|
      modifies this
      ensures Valid()
      ensures forall c :: 0 <= c < |species| ==>
                density[c] == values[c].density && derivative[c] == values[c].derivative
                && chargeDerivative[c] == -species[c].charge * values[c].derivative
    {
      for c := 0 to |species|
        invariant Valid()
        invariant forall i :: 0 <= i < c ==>
                    density[i] == values[i].density && derivative[i] == values[i].derivative
                    && chargeDerivative[i] == -species[i].charge * values[i].derivative
      {
        density := density[c := values[c].density];
        derivative := derivative[c := values[c].derivative];
        chargeDerivative := chargeDerivative[c := -species[c].charge * values[c].derivative];
      }
    }

    method ChargeDensity(f: Fixed) returns (rho: real)
      requires Valid()
      ensures rho == Sum(Charges(species, density), |species|) + f.donors - f.acceptors + f.electronTraps + f.holeTraps
    {
      hide ChargeOf;
      rho := 0.0;
      for c := 0 to |species|
        invariant rho == Sum(Charges(species, density), c)
      {
        var charge := CarrierCharge(species[c], density[c]);
        rho := rho + charge;
      }
      rho := rho + (f.donors - f.acceptors + f.electronTraps + f.holeTraps);
    }
  }

  // ---------------------------------------------------------------------------------------
  // Is the charge derivative the charge's derivative?

  function ChargeAlong(s: Species, density: Curve): Curve {
    (h: Arg) => ChargeOf(s, density(h))
  }

  /** While a dopant is not completely occupied, its charge follows the density. */
  predicate Counts(s: Species, density: real) {
    !s.dopant || density < s.maximum
  }

  /** A density that differs from the limit keeps its side nearby. */
  lemma KeepsSide(f: Curve, d: real, limit: real) returns (radius: real)
    requires HasDeriv(f, d) && f(0.0) != limit
    ensures radius > 0.0
    ensures forall h: Arg :: -radius < h as real < radius ==> (f(h) < limit <==> f(0.0) < limit)
  {
    DerivContinuous(f, d);
    var gap := Abs(f(0.0) - limit) / 2.0;
    radius := Radius(f, f(0.0), gap);
    forall h: Arg | -radius < h as real < radius ensures f(h) < limit <==> f(0.0) < limit {
      assert h != 0.0 ==> Near(f(h), f(0.0), gap);
    }
  }

  lemma Proportional(s: Species, density: Curve, d: real)
    requires HasDeriv(density, d) && Counts(s, density(0.0))
    ensures HasDeriv(ChargeAlong(s, density), Product(s.charge, d))
  {
    var q, g := s.charge, ChargeAlong(s, density);
    if s.dopant {
      var radius := KeepsSide(density, d, s.maximum);
      var shift := Constant(s.maximum);
      var f := Minus(density, shift);
      var scaled := Scaled(q, f);
      DerivConst(shift, s.maximum);
      DerivDiff(density, d, shift, 0.0, f, d);
      DerivScale(f, d, q, scaled, Product(q, d));
      DerivLocal(scaled, g, Product(q, d), radius);
    } else {
      DerivScale(density, d, q, g, Product(q, d));
    }
  }

  lemma Saturated(s: Species, density: Curve, d: real)
    requires HasDeriv(density, d) && s.dopant && density(0.0) > s.maximum
    ensures HasDeriv(ChargeAlong(s, density), 0.0)
  {
    var radius := KeepsSide(density, d, s.maximum);
    var zero := Constant(0.0);
    DerivConst(zero, 0.0);
    forall h: Arg | -radius < h as real < radius ensures ChargeAlong(s, density)(h) == zero(h) {
      assert density(h) >= s.maximum;
      assert s.charge * 0.0 == 0.0;
    }
    DerivLocal(zero, ChargeAlong(s, density), 0.0, radius);
  }

  /** A difference quotient close to both limits. */
  lemma CommonQuotient(f: Curve, a: real, b: real, e: real) returns (q: real)
    requires HasDeriv(f, a) && HasDeriv(f, b) && e > 0.0
    ensures Near(q, a, e) && Near(q, b, e)
  {
    var r := Radius(Slope(f), a, e);
    var s := Radius(Slope(f), b, e);
    var h := (Min(r, s) / 2.0) as Arg;
    q := Slope(f)(h);
  }

  /** Derivatives are unique. */
  lemma DerivUnique(f: Curve, a: real, b: real)
    requires HasDeriv(f, a) && HasDeriv(f, b)
    ensures a == b
  {
    if a != b {
      var q := CommonQuotient(f, a, b, Abs(a - b) / 4.0);
    }
  }

  /** At its limit a dopant's charge follows the density on one side only. */
  lemma OneSided(s: Species, density: Curve, h: Arg)
    requires s.dopant && density(0.0) == s.maximum && h != 0.0
    ensures Slope(ChargeAlong(s, density))(h) == if density(h) < s.maximum then s.charge * Slope(density)(h) else 0.0
  {}

  /** Where nothing moves to first order the limit does not show. */
  lemma FlatAtLimit(s: Species, density: Curve, d: real)
    requires HasDeriv(density, d) && s.dopant && density(0.0) == s.maximum && Product(s.charge, d) == 0.0
    ensures HasDeriv(ChargeAlong(s, density), 0.0)
  {
    var g := ChargeAlong(s, density);
    var scaled := Scaled(s.charge, Slope(density));
    TendsScale(Slope(density), d, s.charge, scaled, 0.0);
    forall e: real | e > 0.0 ensures EventuallyNear(Slope(g), 0.0, e) {
      var radius := Radius(scaled, 0.0, e);
      forall h: Arg | h != 0.0 && -radius < h as real < radius ensures Near(Slope(g)(h), 0.0, e) {
        OneSided(s, density, h);
        assert Near(scaled(h), 0.0, e);
      }
      assert NearWithin(Slope(g), 0.0, e, radius);
    }
  }

  /** Otherwise the charge has a kink at the limit: on the far side its quotient is zero. */
  lemma KinkAtLimit(s: Species, density: Curve, d: real)
    requires HasDeriv(density, d) && s.dopant && density(0.0) == s.maximum && Product(s.charge, d) != 0.0
    ensures !HasDeriv(ChargeAlong(s, density), Product(s.charge, d))
  {
    var g, k := ChargeAlong(s, density), Product(s.charge, d);
    if HasDeriv(g, k) {
      assert d != 0.0;
      var r := Radius(Slope(g), k, Abs(k) / 2.0);
      var t := Radius(Slope(density), d, Abs(d) / 2.0);
      var step := Min(r, t) / 2.0;
      var h: Arg := (if d > 0.0 then step else -step) as Arg;
      assert Near(Slope(g)(h), k, Abs(k) / 2.0);
      var u := Slope(density)(h);
      assert Near(u, d, Abs(d) / 2.0);
      SlopeTimes(density, h);
      SameSigns(u, h as real);
      OneSided(s, density, h);
      assert false;
    }
  }

  lemma SameSigns(a: real, b: real)
    requires (a > 0.0 && b > 0.0) || (a < 0.0 && b < 0.0)
    ensures a * b > 0.0
  {}

  /** The kept charge derivative is the true one exactly if the dopant still counts, or nothing
      moves anyway. */
  lemma ChargeDerivativeExact(s: Species, density: Curve, d: real)
    requires HasDeriv(density, d)
    ensures HasDeriv(ChargeAlong(s, density), Product(s.charge, d))
      <==> Counts(s, density(0.0)) || Product(s.charge, d) == 0.0
  {
    hide HasDeriv;
    var k := Product(s.charge, d);
    if Counts(s, density(0.0)) {
      Proportional(s, density, d);
    } else if density(0.0) > s.maximum {
      Saturated(s, density, d);
      if HasDeriv(ChargeAlong(s, density), k) { DerivUnique(ChargeAlong(s, density), k, 0.0); }
    } else if k == 0.0 {
      FlatAtLimit(s, density, d);
    } else {
      KinkAtLimit(s, density, d);
    }
  }

  /** A mobile dopant at twice its maximum whose density grows: the kept derivative is one, the charge
      does not move. */
  lemma SaturatedDopant(density: Curve)
    requires forall h: Arg {:trigger density(h)} :: density(h) == 2.0 + h as real
    ensures HasDeriv(density, 1.0) && !HasDeriv(ChargeAlong(Species(1.0, true, 1.0), density), Product(1.0, 1.0))
  {
    forall h: Arg ensures density(h) == 2.0 + h as real * 1.0 {}
    DerivAffine(density, 2.0, 1.0);
    ChargeDerivativeExact(Species(1.0, true, 1.0), density, 1.0);
  }

  // ---------------------------------------------------------------------------------------
  // What a species carries

  /** An empty mobile dopant carries its whole charge with the opposite sign, an occupied one none; other carriers
      their own charge. */
  lemma ChargeCarried(s: Species, density: real)
    ensures s.dopant && density >= s.maximum ==> ChargeOf(s, density) == 0.0
    ensures s.dopant && density < s.maximum ==> ChargeOf(s, density) == -s.charge * (s.maximum - density)
    ensures !s.dopant ==> ChargeOf(s, density) == s.charge * density
  {}

  /** Equally many carriers of opposite charge are neutral. */
  lemma PairIsNeutral(a: Species, b: Species, density: real)
    requires !a.dopant && !b.dopant && a.charge == -b.charge
    ensures Sum(Charges([a, b], [density, density]), 2) == 0.0
  {
    var f := Charges([a, b], [density, density]);
    assert Sum(f, 1) == Sum(f, 0) + f(0);
    assert f(1) == -f(0);
  }
}
