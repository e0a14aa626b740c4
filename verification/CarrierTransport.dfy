/** What the carrier fluxes of an edge mean, in the constants of the simulator: Ohm's law, and the
    Scharfetter-Gummel flux between the boxes of the two ends. */
module CarrierTransport {
  import opened Calculus
  import opened Exponential
  import opened EdgeFlux
  import opened Forms
  import opened BoxMesh
  import opened BoxBalance
  import opened Electrostatics

  /** What an edge adds to the rows of a carrier is its flux, taken from the other end. */
  lemma CarrierAdds(p: Params, ex: ExpFun, el: Element, x: seq<real>, e: Edge, k: nat)
    requires IsExp(ex) && p.Positive() && Fits(el, x) && WellFormedEdge(el, e) && k < |el.dofs| && k != el.u
    requires At(el, k, e.n1) != At(el, k, e.n2)
    ensures Dot(OneEdge(p, ex, el, x, e), Spot1(At(el, k, e.n1))) == CarrierFlux(p, ex, el, x, e, k)
    ensures Dot(OneEdge(p, ex, el, x, e), Spot1(At(el, k, e.n2))) == -CarrierFlux(p, ex, el, x, e, k)
  {
    hide OneEdge, CarrierFlux;
    OneCarrier(p, ex, el, x, e, k, Spot1(At(el, k, e.n1)), 1.0);
    OneCarrier(p, ex, el, x, e, k, Spot1(At(el, k, e.n2)), -1.0);
  }

  lemma OneCarrier(p: Params, ex: ExpFun, el: Element, x: seq<real>, e: Edge, k: nat, t: SlotTest, j: real)
    requires IsExp(ex) && p.Positive() && Fits(el, x) && WellFormedEdge(el, e) && k < |el.dofs| && k != el.u
    requires forall i: nat :: i < |el.dofs| ==> Jump(el, e, i, t) == if i == k then j else 0.0
    ensures Dot(OneEdge(p, ex, el, x, e), t) == j * CarrierFlux(p, ex, el, x, e, k)
  {
    hide CarrierFlux, PoissonFlux, Sum, OneEdge, Jump;
    OneEdgeTested(p, ex, el, x, e, t);
    var f := CarrierTerm(p, ex, el, x, e, t);
    forall i: nat | i < |el.dofs| && i != k ensures f(i) == 0.0 {
      if i != el.u {
        var jump, flux := Jump(el, e, i, t), CarrierFlux(p, ex, el, x, e, i);
        NoTimes(jump, flux);
        assert f(i) == jump * flux;
      }
    }
    var jump, flux := Jump(el, e, k, t), CarrierFlux(p, ex, el, x, e, k);
    assert f(k) == jump * flux;
    NoTimes(Jump(el, e, el.u, t), PoissonFlux(p, el, x, e));
    hide CarrierTerm;
    SumSingle(f, k, |el.dofs|);
  }

  /** Ohm's law: with the mean conductivity, an edge moves conductivity * area * drop / length, per unit of the
      mobility scale, from the row of one end to that of the other. */
  lemma OhmAcrossFace(p: Params, ex: ExpFun, el: Element, x: seq<real>, e: Edge, k: nat)
    requires IsExp(ex) && p.Positive() && Fits(el, x) && WellFormedEdge(el, e) && k < |el.dofs| && k != el.u
    requires At(el, k, e.n1) != At(el, k, e.n2) && p.scheme == BIM
    ensures p.mu0 * p.c0 > 0.0
    ensures var mean := (Local(p, el, x, e.n1).sigma(k) + Local(p, el, x, e.n2).sigma(k)) / 2.0;
      var flux := e.area * (mean * ((x[Dof(el, k, e.n1)] - x[Dof(el, k, e.n2)]) / e.len)) / (p.mu0 * p.c0);
      && Dot(OneEdge(p, ex, el, x, e), Spot1(At(el, k, e.n1))) == flux
      && Dot(OneEdge(p, ex, el, x, e), Spot1(At(el, k, e.n2))) == -flux
  {
    CarrierAdds(p, ex, el, x, e, k);
    Positive(p.mu0, p.c0);
    hide OneEdge, Local;
    var c1, c2 := Local(p, el, x, e.n1).sigma(k), Local(p, el, x, e.n2).sigma(k);
    var drop := x[Dof(el, k, e.n1)] - x[Dof(el, k, e.n2)];
    MeanOhm(e.area, e.len, p.mu0 * p.c0, c1, c2, drop);
    assert CarrierFlux(p, ex, el, x, e, k) == e.area / e.len / (p.mu0 * p.c0) * (0.5 * (c1 + c2) * drop);
  }

  lemma MeanOhm(area: real, len: real, scale: real, c1: real, c2: real, drop: real)
    requires len > 0.0 && scale > 0.0
    ensures area / len / scale * (0.5 * (c1 + c2) * drop) == area * ((c1 + c2) / 2.0 * (drop / len)) / scale
  {
    var q, r := area / len, drop / len;
    assert q * len == area && r * len == drop;
    var k := q / scale;
    assert k * scale == q;
    var m := (c1 + c2) / 2.0;
    assert 0.5 * (c1 + c2) == m;
    var n := area * (m * r);
    Scales(area, len, scale, q, r, k, m, drop, n);
  }

  lemma Scales(area: real, len: real, scale: real, q: real, r: real, k: real, m: real, drop: real, n: real)
    requires len > 0.0 && scale > 0.0 && q * len == area && r * len == drop && k * scale == q && n == area * (m * r)
    ensures k * (m * drop) == n / scale
  {
    assert m * drop == m * r * len;
    assert k * (m * drop) * scale == q * (m * r * len);
    assert q * (m * r * len) == q * len * (m * r);
  }

  /** Where both discretisations meet: equal conductivities, no potential drop, a small quasi-Fermi drop. */
  lemma SchemesAgree(ex: ExpFun, s: Edge1)
    requires IsExp(ex) && s.Geometric() && s.c1 == s.c2 && s.p1 == s.p2 && Abs(s.q1 - s.q2) <= 0.1
    ensures Flux(ex, BIMSG, s) == Flux(ex, BIM, s)
  {
    hide Coefficient;
    var k, a := Coefficient(s), s.FermiDrop();
    assert Bernoulli(ex, s.Drop()).val == 1.0 && Left(ex, a).val == -a && Right(ex, a).val == -a;
    SameFluxes(k, s.c1, s.q1 - s.q2, if s.positive then k else -k, a);
  }

  lemma SameFluxes(k: real, c: real, drop: real, sk: real, a: real)
    requires (sk == k && a == -drop) || (sk == -k && a == drop)
    ensures 0.5 * (sk * (c * (1.0 * -a)) + sk * (c * ((0.0 + 1.0) * -a))) == k * (0.5 * (c + c) * drop)
  {
    assert sk * (c * -a) == k * (c * drop);
  }

  /** Scharfetter and Gummel: under Boltzmann statistics an edge moves, per length and mobility scale, area times
      the difference of the end conductivities weighted with the Bernoulli function. */
  lemma ScharfetterGummel(p: Params, ex: ExpFun, el: Element, x: seq<real>, e: Edge, k: nat)
    requires IsExp(ex) && p.Positive() && Fits(el, x) && WellFormedEdge(el, e) && k < |el.dofs| && k != el.u
    requires At(el, k, e.n1) != At(el, k, e.n2) && p.scheme == BIMSG && Boltzmann(ex, EdgeState(p, el, x, e, k))
    requires Abs(x[Dof(el, el.u, e.n1)] - x[Dof(el, el.u, e.n2)]) > 0.0001
    requires Abs(x[Dof(el, k, e.n1)] - x[Dof(el, k, e.n2)]) > 0.1
    ensures var drop := x[Dof(el, el.u, e.n1)] - x[Dof(el, el.u, e.n2)];
      var sign := if el.positive[k] then 1.0 else -1.0;
      var b1, b2 := Bernoulli(ex, -sign * drop).val, Bernoulli(ex, sign * drop).val;
      var c1, c2 := Local(p, el, x, e.n1).sigma(k), Local(p, el, x, e.n2).sigma(k);
      Dot(OneEdge(p, ex, el, x, e), Spot1(At(el, k, e.n1))) * (e.len * (p.mu0 * p.c0))
        == sign * (e.area * (c1 * b1 - c2 * b2))
  {
    hide OneEdge, Local, Bernoulli, Boltzmann, FluxSG;
    CarrierAdds(p, ex, el, x, e, k);
    ClassicalScaled(ex, EdgeState(p, el, x, e, k));
  }

  lemma ClassicalScaled(ex: ExpFun, s: Edge1)
    requires IsExp(ex) && s.Geometric() && Boltzmann(ex, s)
    requires Abs(s.p1 - s.p2) > 0.0001 && Abs(s.q1 - s.q2) > 0.1
    ensures var sign := if s.positive then 1.0 else -1.0;
      FluxSG(ex, s) * (s.len * s.scale)
        == sign * (s.area * (s.c1 * Bernoulli(ex, -sign * (s.p1 - s.p2)).val
                             - s.c2 * Bernoulli(ex, sign * (s.p1 - s.p2)).val))
  {
    hide Bernoulli, Boltzmann, FluxSG;
    FluxIsClassical(ex, s);
    var sign, drop := if s.positive then 1.0 else -1.0, s.p1 - s.p2;
    assert s.Drop() == -sign * drop && -s.Drop() == sign * drop;
    var d := s.c1 * Bernoulli(ex, s.Drop()).val - s.c2 * Bernoulli(ex, -s.Drop()).val;
    Unscale(s.area, s.len, s.scale, sign, d);
  }

  lemma Unscale(area: real, len: real, scale: real, sign: real, d: real)
    requires len > 0.0 && scale > 0.0
    ensures sign == 1.0 ==> area / len / scale * d * (len * scale) == sign * (area * d)
    ensures sign == -1.0 ==> -(area / len / scale) * d * (len * scale) == sign * (area * d)
  {
    var q := area / len;
    var k := q / scale;
    assert q * len == area && k * scale == q;
    assert k * d * (len * scale) == k * scale * len * d;
    assert -k * d * (len * scale) == -(k * scale * len * d);
  }

  /** The edge seen from its other end. */
  function Turned(s: Edge1): Edge1 {
    s.(c1 := s.c2, c2 := s.c1, p1 := s.p2, p2 := s.p1, q1 := s.q2, q2 := s.q1)
  }

  /** The flux does not depend on the orientation of the edge. */
  lemma TurnedFlux(ex: ExpFun, scheme: Scheme, s: Edge1)
    requires IsExp(ex) && s.Geometric()
    ensures Flux(ex, scheme, Turned(s)) == -Flux(ex, scheme, s)
  {
    if scheme == BIM {
      TurnedMean(Coefficient(s), 0.5 * (s.c1 + s.c2), s.q1 - s.q2);
    } else {
      TurnedParts(ex, s);
      hide Coefficient, PartsSG, Averaged, OneSided, Signed;
      TurnedSG(Signed(s.positive, Coefficient(s)), s.c1, s.c2, PartsSG(ex, s), PartsSG(ex, Turned(s)));
      assert Coefficient(Turned(s)) == Coefficient(s) by { SameCoefficient(s); }
    }
  }

  lemma TurnedParts(ex: ExpFun, s: Edge1)
    requires IsExp(ex)
    ensures var g, h := PartsSG(ex, s), PartsSG(ex, Turned(s));
      h.b1.val == g.b2.val && h.b2.val == g.b1.val && h.l.val == -g.r.val && h.r.val == -g.l.val
  {
    var t, x, a := Turned(s), s.Drop(), s.FermiDrop();
    assert t.Drop() == -x && t.FermiDrop() == -a;
    BernoulliMirror(ex, x);
    hide Bernoulli;
    assert -(-a) == a;
  }

  lemma TurnedMean(k: real, m: real, d: real)
    ensures k * (m * -d) == -(k * (m * d))
  {}

  lemma SameCoefficient(s: Edge1)
    requires s.Geometric()
    ensures Coefficient(Turned(s)) == Coefficient(s)
  {}

  lemma TurnedSG(k: real, c1: real, c2: real, g: Parts, h: Parts)
    requires h.b1.val == g.b2.val && h.b2.val == g.b1.val && h.l.val == -g.r.val && h.r.val == -g.l.val
    ensures Averaged(k, OneSided(c2, h.b1.val, h.l.val), OneSided(c1, h.b2.val, h.r.val))
      == -Averaged(k, OneSided(c1, g.b1.val, g.l.val), OneSided(c2, g.b2.val, g.r.val))
  {
    var u, v := c1 * (g.b1.val * g.l.val), c2 * (g.b2.val * g.r.val);
    assert c2 * (h.b1.val * h.l.val) == -v && c1 * (h.b2.val * h.r.val) == -u;
  }
}
