/** Dissipation, the discrete maximum principle and the balance of one carrier. */
module MaximumPrinciple {
  import opened Calculus
  import opened Exponential
  import opened EdgeFlux
  import opened Forms
  import opened BoxMesh
  import opened BoxSystem
  import opened BoxBalance

  /** Variable c is a carrier, not the electric potential, in every element. */
  ghost predicate IsCarrier(m: Mesh, c: nat)
    requires Valid(m)
  {
    forall e :: 0 <= e < |m.elements| ==> m.elements[e].vars[m.elements[e].u] != c
  }

  ghost predicate NonNegativeConductivity(p: Params, el: Element, x: seq<real>, c: nat)
    requires Fits(el, x)
  {
    forall k: nat, n: nat :: k < |el.dofs| && el.vars[k] == c && n < el.nNodes ==> Local(p, el, x, n).sigma(k) >= 0.0
  }

  ghost predicate PositiveConductivity(p: Params, el: Element, x: seq<real>, c: nat)
    requires Fits(el, x)
  {
    forall k: nat, n: nat :: k < |el.dofs| && el.vars[k] == c && n < el.nNodes ==> Local(p, el, x, n).sigma(k) > 0.0
  }

  /** Neither recombination nor boundary exchange acts on carrier c. */
  ghost predicate SourceFree(p: Params, el: Element, x: seq<real>, c: nat)
    requires Fits(el, x)
  {
    && (forall k: nat, n: nat :: k < |el.dofs| && el.vars[k] == c && n < el.nNodes ==>
         Local(p, el, x, n).rate(k) == 0.0)
    && (forall j, i: nat, k: nat ::
          (0 <= j < |el.sides| && i < |el.sides[j].nodes| && k < |el.dofs| && el.vars[k] == c) ==>
          NoExchange(p, el, x, el.sides[j], i, k))
  }

  ghost predicate NoExchange(p: Params, el: Element, x: seq<real>, s: Side, i: nat, k: nat)
    requires Fits(el, x) && WellFormedSide(el, s) && i < |s.nodes| && k < |el.dofs|
  {
    s.Modelled? ==> BoundaryRows(p, el, x, s, i)(k).dirichlet || BoundaryValue(p, el, x, s, i, k) == 0.0
  }

  ghost predicate NowhereNegative(m: Mesh, x: seq<real>, c: nat)
    requires Solvable(m, x)
  {
    forall e :: 0 <= e < |m.elements| ==> NonNegativeConductivity(m.p, m.elements[e], x, c)
  }

  ghost predicate Conducting(m: Mesh, x: seq<real>, c: nat)
    requires Solvable(m, x)
  {
    forall e :: 0 <= e < |m.elements| ==> PositiveConductivity(m.p, m.elements[e], x, c)
  }

  ghost predicate Lossless(m: Mesh, x: seq<real>, c: nat)
    requires Solvable(m, x)
  {
    forall e :: 0 <= e < |m.elements| ==> SourceFree(m.p, m.elements[e], x, c)
  }

  /** w lives on carrier c and never decreases with its quasi-Fermi potential. */
  ghost predicate MonotoneTest(m: Mesh, x: seq<real>, c: nat, w: nat -> real)
    requires Solvable(m, x)
  {
    && (forall d: nat :: d < m.size && m.owner(d) != c ==> w(d) == 0.0)
    && (forall d: nat, d': nat :: d < m.size && d' < m.size && m.owner(d) == c && m.owner(d') == c && x[d] <= x[d'] ==>
         w(d) <= w(d'))
  }

  lemma TestAt(m: Mesh, e: nat, k: nat, n: nat, w: nat -> real)
    requires Valid(m) && e < |m.elements| && k < |m.elements[e].dofs| && n < m.elements[e].nNodes
    ensures var el := m.elements[e]; Test(el, w)(At(el, k, n)) == w(Dof(el, k, n))
    ensures var el := m.elements[e]; Dof(el, k, n) < m.size && m.owner(Dof(el, k, n)) == el.vars[k]
  {}

  lemma ProductSigns(a: real, f: real)
    requires (a >= 0.0 && f >= 0.0) || (a <= 0.0 && f <= 0.0)
    ensures a * f >= 0.0
    ensures a * f == 0.0 && f != 0.0 ==> a == 0.0
  {}

  /** A monotone test function never meets a flux of the opposite sign. */
  lemma CarrierTermSign(m: Mesh, ex: ExpFun, x: seq<real>, c: nat, w: nat -> real, e: nat, i: nat, k: nat)
    requires IsExp(ex) && Solvable(m, x) && MonotoneTest(m, x, c, w) && e < |m.elements|
    requires NonNegativeConductivity(m.p, m.elements[e], x, c)
    requires i < |m.elements[e].edges| && k < |m.elements[e].dofs| && k != m.elements[e].u
    ensures var el := m.elements[e]; CarrierTerm(m.p, ex, el, x, el.edges[i], Test(el, w))(k) >= 0.0
    ensures var el := m.elements[e]; var d := el.edges[i];
      CarrierTerm(m.p, ex, el, x, d, Test(el, w))(k) == 0.0 && el.vars[k] == c && d.area > 0.0
        && PositiveConductivity(m.p, el, x, c)
      ==> w(Dof(el, k, d.n1)) == w(Dof(el, k, d.n2))
  {
    hide Coefficient, FluxSG, FluxMean, Flux;
    var el := m.elements[e];
    var d := el.edges[i];
    TestAt(m, e, k, d.n1, w);
    TestAt(m, e, k, d.n2, w);
    var s := EdgeState(m.p, el, x, d, k);
    var f := Flux(ex, m.p.scheme, s);
    var jump := w(Dof(el, k, d.n1)) - w(Dof(el, k, d.n2));
    if el.vars[k] == c {
      FluxSign(ex, m.p.scheme, s);
      assert s.q1 == x[Dof(el, k, d.n1)] && s.q2 == x[Dof(el, k, d.n2)];
      ProductSigns(jump, f);
    }
  }

  /** Flux work of carrier c on one edge: every other block is tested with zero. */
  lemma EdgeWork(m: Mesh, ex: ExpFun, x: seq<real>, c: nat, w: nat -> real, e: nat, i: nat)
    requires IsExp(ex) && Solvable(m, x) && MonotoneTest(m, x, c, w) && e < |m.elements| && IsCarrier(m, c)
    requires NonNegativeConductivity(m.p, m.elements[e], x, c) && i < |m.elements[e].edges|
    ensures EdgeTerm(m.p, ex, m.elements[e], x, Test(m.elements[e], w))(i) >= 0.0
    ensures EdgeTerm(m.p, ex, m.elements[e], x, Test(m.elements[e], w))(i) == 0.0 ==>
      FlatAlong(m, ex, x, c, w, e, i)
  {
    hide PoissonFlux, CarrierTerm;
    var el := m.elements[e];
    var d, t := el.edges[i], Test(el, w);
    TestAt(m, e, el.u, d.n1, w);
    TestAt(m, e, el.u, d.n2, w);
    assert Jump(el, d, el.u, t) == 0.0;
    assert Jump(el, d, el.u, t) * PoissonFlux(m.p, el, x, d) == 0.0;
    var f := CarrierTerm(m.p, ex, el, x, d, t);
    forall k: nat | k < |el.dofs| ensures f(k) >= 0.0 {
      CarrierTermSignAll(m, ex, x, c, w, e, i, k);
    }
    SumNonNegative(f, |el.dofs|);
  }

  /** All terms of edge i vanish. */
  ghost predicate FlatAlong(m: Mesh, ex: ExpFun, x: seq<real>, c: nat, w: nat -> real, e: nat, i: nat)
    requires IsExp(ex) && Solvable(m, x) && e < |m.elements| && i < |m.elements[e].edges|
  {
    var el := m.elements[e];
    forall k: nat :: k < |el.dofs| ==> CarrierTerm(m.p, ex, el, x, el.edges[i], Test(el, w))(k) == 0.0
  }

  lemma CarrierTermSignAll(m: Mesh, ex: ExpFun, x: seq<real>, c: nat, w: nat -> real, e: nat, i: nat, k: nat)
    requires IsExp(ex) && Solvable(m, x) && MonotoneTest(m, x, c, w) && e < |m.elements|
    requires NonNegativeConductivity(m.p, m.elements[e], x, c)
    requires i < |m.elements[e].edges| && k < |m.elements[e].dofs|
    ensures CarrierTerm(m.p, ex, m.elements[e], x, m.elements[e].edges[i], Test(m.elements[e], w))(k) >= 0.0
  {
    if k != m.elements[e].u { CarrierTermSign(m, ex, x, c, w, e, i, k); }
  }

  lemma ElementWork(m: Mesh, ex: ExpFun, x: seq<real>, c: nat, w: nat -> real, e: nat)
    requires IsExp(ex) && Solvable(m, x) && MonotoneTest(m, x, c, w) && e < |m.elements| && IsCarrier(m, c)
    requires NonNegativeConductivity(m.p, m.elements[e], x, c)
    ensures EdgeWorkOf(m, ex, x, w, e) >= 0.0
    ensures EdgeWorkOf(m, ex, x, w, e) == 0.0 ==>
      forall i: nat :: i < |m.elements[e].edges| ==> FlatAlong(m, ex, x, c, w, e, i)
  {
    var el := m.elements[e];
    hide EdgeTerm;
    var f := EdgeTerm(m.p, ex, el, x, Test(el, w));
    forall i: nat | i < |el.edges| ensures f(i) >= 0.0 && (f(i) == 0.0 ==> FlatAlong(m, ex, x, c, w, e, i)) {
      EdgeWork(m, ex, x, c, w, e, i);
    }
    SumNonNegative(f, |el.edges|);
  }

  /** Dissipation: for non-negative conductivities the flux work of a monotone test function is
      never negative, in particular that of the quasi-Fermi potential itself. */
  lemma TotalWork(m: Mesh, ex: ExpFun, x: seq<real>, c: nat, w: nat -> real)
    requires IsExp(ex) && Solvable(m, x) && MonotoneTest(m, x, c, w) && IsCarrier(m, c)
    requires NowhereNegative(m, x, c)
    ensures Sum(EdgeWorks(m, ex, x, w), |m.elements|) >= 0.0
    ensures Sum(EdgeWorks(m, ex, x, w), |m.elements|) == 0.0 ==>
      forall e: nat, i: nat :: e < |m.elements| && i < |m.elements[e].edges| ==> FlatAlong(m, ex, x, c, w, e, i)
  {
    hide EdgeWorkOf, FlatAlong;
    var f := EdgeWorks(m, ex, x, w);
    forall e: nat | e < |m.elements|
      ensures f(e) >= 0.0 && (f(e) == 0.0 ==> forall i: nat :: i < |m.elements[e].edges| ==>
        FlatAlong(m, ex, x, c, w, e, i))
    {
      ElementWork(m, ex, x, c, w, e);
    }
    SumNonNegative(f, |m.elements|);
  }

  // ---------------------------------------------------------------------------------------
  // Connectivity

  /** Two unknowns of carrier c at the ends of an edge with a positive dual face. */
  ghost predicate Linked(m: Mesh, c: nat, a: nat, b: nat)
    requires Valid(m)
  {
    exists e: nat, i: nat, k: nat :: LinkedBy(m, c, a, b, e, i, k)
  }

  ghost predicate LinkedBy(m: Mesh, c: nat, a: nat, b: nat, e: nat, i: nat, k: nat)
    requires Valid(m)
  {
    && e < |m.elements| && i < |m.elements[e].edges| && k < |m.elements[e].dofs|
    && m.elements[e].vars[k] == c && m.elements[e].edges[i].area > 0.0
    && var el := m.elements[e]; var d := el.edges[i];
       || (a == Dof(el, k, d.n1) && b == Dof(el, k, d.n2))
       || (b == Dof(el, k, d.n1) && a == Dof(el, k, d.n2))
  }

  ghost predicate Chain(m: Mesh, c: nat, path: seq<nat>)
    requires Valid(m)
  {
    |path| > 0 && forall i :: 0 <= i < |path| - 1 ==> Linked(m, c, path[i], path[i + 1])
  }

  ghost predicate Connected(m: Mesh, c: nat, a: nat, b: nat)
    requires Valid(m)
  {
    exists path: seq<nat> :: |path| > 0 && Chain(m, c, path) && path[0] == a && path[|path| - 1] == b
  }

  lemma LinkFlat(m: Mesh, ex: ExpFun, x: seq<real>, c: nat, w: nat -> real, a: nat, b: nat)
    requires IsExp(ex) && Solvable(m, x) && MonotoneTest(m, x, c, w) && IsCarrier(m, c)
    requires Conducting(m, x, c)
    requires Sum(EdgeWorks(m, ex, x, w), |m.elements|) == 0.0
    requires Linked(m, c, a, b)
    ensures w(a) == w(b)
  {
    var e: nat, i: nat, k: nat :| LinkedBy(m, c, a, b, e, i, k);
    forall e' | 0 <= e' < |m.elements| ensures NonNegativeConductivity(m.p, m.elements[e'], x, c) {
      assert PositiveConductivity(m.p, m.elements[e'], x, c);
    }
    TotalWork(m, ex, x, c, w);
    assert FlatAlong(m, ex, x, c, w, e, i);
    hide CarrierTerm;
    CarrierTermSign(m, ex, x, c, w, e, i, k);
  }

  lemma {:induction false} ChainFlat(m: Mesh, ex: ExpFun, x: seq<real>, c: nat, w: nat -> real, path: seq<nat>)
    requires IsExp(ex) && Solvable(m, x) && MonotoneTest(m, x, c, w) && IsCarrier(m, c)
    requires Conducting(m, x, c)
    requires Sum(EdgeWorks(m, ex, x, w), |m.elements|) == 0.0
    requires Chain(m, c, path)
    ensures w(path[0]) == w(path[|path| - 1])
    decreases |path|
  {
    if |path| > 1 {
      LinkFlat(m, ex, x, c, w, path[0], path[1]);
      var rest := path[1..];
      forall i | 0 <= i < |rest| - 1 ensures Linked(m, c, rest[i], rest[i + 1]) {
        assert rest[i] == path[i + 1] && rest[i + 1] == path[i + 2];
      }
      ChainFlat(m, ex, x, c, w, rest);
    }
  }

  /** The quasi-Fermi potential of carrier c as a test function. */
  function FermiTest(m: Mesh, x: seq<real>, c: nat): nat -> real {
    (d: nat) => if d < |x| && m.owner(d) == c then x[d] else 0.0
  }

  /** Unknowns of carrier c that are connected have the same quasi-Fermi potential. */
  ghost predicate ConstantOnComponents(m: Mesh, x: seq<real>, c: nat)
    requires Solvable(m, x)
  {
    forall a: nat, b: nat ::
      a < m.size && b < m.size && m.owner(a) == c && m.owner(b) == c && Connected(m, c, a, b) ==> x[a] == x[b]
  }

  /** Both ends of an edge with a dual face belong to one component. */
  lemma EndsAgree(m: Mesh, x: seq<real>, c: nat, e: nat, i: nat, k: nat)
    requires Solvable(m, x) && ConstantOnComponents(m, x, c)
    requires e < |m.elements| && i < |m.elements[e].edges| && k < |m.elements[e].dofs| && m.elements[e].vars[k] == c
    requires m.elements[e].edges[i].area > 0.0
    ensures var el := m.elements[e]; var w := FermiTest(m, x, c);
      w(Dof(el, k, el.edges[i].n1)) == w(Dof(el, k, el.edges[i].n2))
  {
    var el, w := m.elements[e], FermiTest(m, x, c);
    var d := el.edges[i];
    TestAt(m, e, k, d.n1, w);
    TestAt(m, e, k, d.n2, w);
    var a, b := Dof(el, k, d.n1), Dof(el, k, d.n2);
    hide WellFormed, Covers;
    assert LinkedBy(m, c, a, b, e, i, k);
    assert Chain(m, c, [a, b]);
    hide Chain;
    assert [a, b][0] == a && [a, b][|[a, b]| - 1] == b;
    assert Connected(m, c, a, b);
  }

  lemma FlatLink(m: Mesh, ex: ExpFun, x: seq<real>, c: nat, e: nat, i: nat, k: nat)
    requires IsExp(ex) && Solvable(m, x) && ConstantOnComponents(m, x, c)
    requires e < |m.elements| && i < |m.elements[e].edges| && k < |m.elements[e].dofs| && k != m.elements[e].u
    ensures var el := m.elements[e];
      CarrierTerm(m.p, ex, el, x, el.edges[i], Test(el, FermiTest(m, x, c)))(k) == 0.0
  {
    hide Flux, ConstantOnComponents;
    var el, w := m.elements[e], FermiTest(m, x, c);
    var d := el.edges[i];
    var t := Test(el, w);
    var s := EdgeState(m.p, el, x, d, k);
    TestAt(m, e, k, d.n1, w);
    TestAt(m, e, k, d.n2, w);
    if el.vars[k] == c && d.area > 0.0 {
      EndsAgree(m, x, c, e, i, k);
      assert Jump(el, d, k, t) == 0.0;
    } else if el.vars[k] == c {
      NoFaceNoFlux(ex, m.p.scheme, s);
    } else {
      assert Jump(el, d, k, t) == 0.0;
    }
    var flux := CarrierFlux(m.p, ex, el, x, d, k);
    assert CarrierTerm(m.p, ex, el, x, d, t)(k) == Jump(el, d, k, t) * flux;
    assert Jump(el, d, k, t) == 0.0 || flux == 0.0;
  }

  /** A constant potential on every component does no work on any edge. */
  lemma ConstantDoesNoWork(m: Mesh, ex: ExpFun, x: seq<real>, c: nat)
    requires IsExp(ex) && Solvable(m, x) && IsCarrier(m, c)
    requires ConstantOnComponents(m, x, c)
    ensures Sum(EdgeWorks(m, ex, x, FermiTest(m, x, c)), |m.elements|) == 0.0
  {
    hide PoissonFlux, CarrierTerm, Linked, Connected;
    var w := FermiTest(m, x, c);
    forall e: nat | e < |m.elements| ensures EdgeWorkOf(m, ex, x, w, e) == 0.0 {
      var el := m.elements[e];
      forall i: nat | i < |el.edges| ensures EdgeTerm(m.p, ex, el, x, Test(el, w))(i) == 0.0 {
        EdgeIdle(m, ex, x, c, e, i);
      }
      SumZero(EdgeTerm(m.p, ex, el, x, Test(el, w)), |el.edges|);
    }
    SumZero(EdgeWorks(m, ex, x, w), |m.elements|);
  }

  lemma EdgeIdle(m: Mesh, ex: ExpFun, x: seq<real>, c: nat, e: nat, i: nat)
    requires IsExp(ex) && Solvable(m, x) && IsCarrier(m, c)
    requires ConstantOnComponents(m, x, c) && e < |m.elements| && i < |m.elements[e].edges|
    ensures var el := m.elements[e]; OneEdgeTerm(m.p, ex, el, x, el.edges[i], Test(el, FermiTest(m, x, c))) == 0.0
  {
    hide PoissonFlux, CarrierFlux, Linked, Connected, ConstantOnComponents;
    var el, w := m.elements[e], FermiTest(m, x, c);
    var d, t := el.edges[i], Test(el, w);
    TestAt(m, e, el.u, d.n1, w);
    TestAt(m, e, el.u, d.n2, w);
    assert Jump(el, d, el.u, t) == 0.0;
    var f := CarrierTerm(m.p, ex, el, x, d, t);
    forall k: nat | k < |el.dofs| ensures f(k) == 0.0 {
      if k != el.u { FlatLink(m, ex, x, c, e, i, k); }
    }
    SumZero(f, |el.dofs|);
    assert Jump(el, d, el.u, t) * PoissonFlux(m.p, el, x, d) == 0.0;
  }

  /** Positive dissipation: the quasi-Fermi potential times the assembled flux residual is never
      negative; where everything conducts it vanishes exactly for a potential that is constant on
      every connected component. */
  lemma Dissipation(m: Mesh, ex: ExpFun, x: seq<real>, c: nat)
    requires IsExp(ex) && Solvable(m, x) && IsCarrier(m, c)
    requires NowhereNegative(m, x, c)
    ensures Sum(WeightedFlux(m, ex, x, FermiTest(m, x, c)), m.size) >= 0.0
    ensures Conducting(m, x, c) ==>
      (Sum(WeightedFlux(m, ex, x, FermiTest(m, x, c)), m.size) == 0.0 <==> ConstantOnComponents(m, x, c))
  {
    var w := FermiTest(m, x, c);
    assert MonotoneTest(m, x, c, w);
    FluxWeakForm(m, ex, x, w);
    TotalWork(m, ex, x, c, w);
    hide EdgeWorks, WeightedFlux;
    if ConstantOnComponents(m, x, c) { ConstantDoesNoWork(m, ex, x, c); }
    if Sum(EdgeWorks(m, ex, x, w), |m.elements|) == 0.0 && Conducting(m, x, c) {
      forall a: nat, b: nat | a < m.size && b < m.size && m.owner(a) == c && m.owner(b) == c && Connected(m, c, a, b)
        ensures x[a] == x[b]
      {
        var path: seq<nat> :| |path| > 0 && Chain(m, c, path) && path[0] == a && path[|path| - 1] == b;
        ChainFlat(m, ex, x, c, w, path);
        assert w(a) == x[a] && w(b) == x[b];
      }
    }
  }

  // ---------------------------------------------------------------------------------------
  // The discrete maximum principle

  /** Every value imposed for an unknown of carrier c lies between lo and hi. */
  ghost predicate ContactsWithin(m: Mesh, x: seq<real>, c: nat, lo: real, hi: real)
    requires Solvable(m, x)
  {
    forall e, j, i: nat, k: nat ::
      0 <= e < |m.elements| && 0 <= j < |m.elements[e].sides| && i < |m.elements[e].sides[j].nodes|
      && k < |m.elements[e].dofs| && m.elements[e].vars[k] == c && m.elements[e].sides[j].Modelled?
      ==> ContactWithin(m.p, m.elements[e], x, m.elements[e].sides[j], i, k, lo, hi)
  }

  ghost predicate ContactWithin(p: Params, el: Element, x: seq<real>, s: Side, i: nat, k: nat, lo: real, hi: real)
    requires p.Positive() && Fits(el, x) && WellFormedSide(el, s) && i < |s.nodes| && k < |el.dofs| && s.Modelled?
  {
    var row := BoundaryRows(p, el, x, s, i)(k);
    row.dirichlet ==> row.a == 1.0 && lo <= row.g / p.phi0 <= hi
  }

  /** An imposed entry of carrier c is the distance of the unknown to a value within [lo, hi]. */
  ghost predicate ImposedWithin(m: Mesh, x: seq<real>, c: nat, lo: real, hi: real, a: Add<nat>)
    requires Solvable(m, x)
  {
    a.at < m.size && (m.owner(a.at) == c ==> x[a.at] - hi <= a.val <= x[a.at] - lo)
  }

  ghost predicate AllImposedWithin(m: Mesh, x: seq<real>, c: nat, lo: real, hi: real, adds: seq<Add<nat>>)
    requires Solvable(m, x)
  {
    forall i :: 0 <= i < |adds| ==> ImposedWithin(m, x, c, lo, hi, adds[i])
  }

  lemma {:induction false} FlatImposed(m: Mesh, x: seq<real>, c: nat, lo: real, hi: real, f: nat -> seq<Add<nat>>,
                                       n: nat)
    requires Solvable(m, x)
    requires forall i: nat :: i < n ==> AllImposedWithin(m, x, c, lo, hi, f(i))
    ensures AllImposedWithin(m, x, c, lo, hi, Flat(f, n))
  {
    if n > 0 { FlatImposed(m, x, c, lo, hi, f, n - 1); }
  }

  lemma DistanceToContact(phi0: real, g: real, u: real, lo: real, hi: real)
    requires phi0 > 0.0 && lo <= g / phi0 <= hi
    ensures u - hi <= -((g - 1.0 * (phi0 * u)) / phi0) <= u - lo
  {}

  lemma OneContactImposed(m: Mesh, x: seq<real>, c: nat, lo: real, hi: real, e: nat, j: nat, i: nat, k: nat)
    requires Solvable(m, x) && ContactsWithin(m, x, c, lo, hi) && e < |m.elements|
    requires j < |m.elements[e].sides| && i < |m.elements[e].sides[j].nodes| && m.elements[e].sides[j].Modelled?
    requires k < |m.elements[e].dofs|
    ensures var el := m.elements[e]; var s := el.sides[j];
      BoundaryRows(m.p, el, x, s, i)(k).dirichlet ==> ImposedWithin(m, x, c, lo, hi, DirichletAdd(m.p, el, x, s, i, k))
  {
    var el := m.elements[e];
    var s := el.sides[j];
    TestAt(m, e, k, s.nodes[i], (d: nat) => 0.0);
    var row := BoundaryRows(m.p, el, x, s, i)(k);
    if row.dirichlet && el.vars[k] == c {
      assert ContactWithin(m.p, el, x, s, i, k, lo, hi);
      DistanceToContact(m.p.phi0, row.g, Potential(el, x, k, s.nodes[i]), lo, hi);
    }
  }

  lemma ContactImposed(m: Mesh, x: seq<real>, c: nat, lo: real, hi: real, e: nat, j: nat, i: nat)
    requires Solvable(m, x) && ContactsWithin(m, x, c, lo, hi) && e < |m.elements|
    requires j < |m.elements[e].sides| && i < |m.elements[e].sides[j].nodes| && m.elements[e].sides[j].Modelled?
    ensures var el := m.elements[e];
      AllImposedWithin(m, x, c, lo, hi, Flat(DirichletBlock(m.p, el, x, el.sides[j], i), |el.dofs|))
  {
    var el := m.elements[e];
    var s := el.sides[j];
    var f := DirichletBlock(m.p, el, x, s, i);
    forall k: nat | k < |el.dofs| ensures AllImposedWithin(m, x, c, lo, hi, f(k)) {
      OneContactImposed(m, x, c, lo, hi, e, j, i, k);
      hide ImposedWithin, DirichletAdd, BoundaryRows;
    }
    FlatImposed(m, x, c, lo, hi, f, |el.dofs|);
  }

  lemma ImposedBounded(m: Mesh, x: seq<real>, c: nat, lo: real, hi: real)
    requires Solvable(m, x) && ContactsWithin(m, x, c, lo, hi)
    ensures AllImposedWithin(m, x, c, lo, hi, Imposed(m, x))
  {
    forall e: nat | e < |m.elements| ensures AllImposedWithin(m, x, c, lo, hi, DirichletElement(m, x)(e)) {
      var el := m.elements[e];
      forall j: nat | j < |el.sides| ensures AllImposedWithin(m, x, c, lo, hi, DirichletSides(m.p, el, x)(j)) {
        var s := el.sides[j];
        forall i: nat | i < |s.nodes| ensures AllImposedWithin(m, x, c, lo, hi, DirichletPoint(m.p, el, x, s)(i)) {
          if s.Modelled? { ContactImposed(m, x, c, lo, hi, e, j, i); }
        }
        FlatImposed(m, x, c, lo, hi, DirichletPoint(m.p, el, x, s), |s.nodes|);
      }
      FlatImposed(m, x, c, lo, hi, DirichletSides(m.p, el, x), |el.sides|);
    }
    FlatImposed(m, x, c, lo, hi, DirichletElement(m, x), |m.elements|);
  }

  /** A Dirichlet row that vanishes pins its unknown between the imposed values, even when
      several contacts impose different ones. */
  lemma {:induction false} PinnedWithin(m: Mesh, x: seq<real>, c: nat, lo: real, hi: real, adds: seq<Add<nat>>, g: nat)
    requires Solvable(m, x) && g < m.size && m.owner(g) == c
    requires AllImposedWithin(m, x, c, lo, hi, adds)
    ensures x[g] >= hi ==> Entry(adds, g) >= 0.0
    ensures x[g] <= lo ==> Entry(adds, g) <= 0.0
    ensures Touches(adds, g) && x[g] > hi ==> Entry(adds, g) > 0.0
    ensures Touches(adds, g) && x[g] < lo ==> Entry(adds, g) < 0.0
  {
    if adds != [] {
      var n := |adds| - 1;
      PinnedWithin(m, x, c, lo, hi, adds[..n], g);
      assert adds == adds[..n] + [adds[n]];
      EntryAppend(adds[..n], adds[n], g);
      assert ImposedWithin(m, x, c, lo, hi, adds[n]);
      hide Entry;
      if Touches(adds, g) && adds[n].at != g {
        var i :| 0 <= i < |adds| && adds[i].at == g;
        assert adds[..n][i].at == g;
      }
    }
  }

  /** Carrier c is in steady state: every row of its unknowns vanishes. */
  ghost predicate SteadyState(m: Mesh, ex: ExpFun, x: seq<real>, c: nat)
    requires IsExp(ex) && Solvable(m, x)
  {
    forall g: nat :: g < m.size && m.owner(g) == c ==> Residual(m, ex, x, g) == 0.0
  }

  /** Every unknown of carrier c is connected to an imposed one. */
  ghost predicate Anchored(m: Mesh, x: seq<real>, c: nat)
    requires Solvable(m, x)
  {
    forall g: nat :: g < m.size && m.owner(g) == c ==> AnchoredAt(m, x, c, g)
  }

  ghost predicate AnchoredAt(m: Mesh, x: seq<real>, c: nat, g: nat)
    requires Solvable(m, x)
  {
    exists d: nat :: d < m.size && m.owner(d) == c && Touches(Imposed(m, x), d) && Connected(m, c, g, d)
  }

  lemma SourcesSilent(m: Mesh, x: seq<real>, c: nat, w: nat -> real, e: nat)
    requires Solvable(m, x) && MonotoneTest(m, x, c, w) && e < |m.elements| && IsCarrier(m, c)
    requires SourceFree(m.p, m.elements[e], x, c)
    ensures var el := m.elements[e];
      && Sum(DotOf(NodeAdds(m.p, el, x), Test(el, w)), el.nNodes) == 0.0
      && Sum(DotOf(SideAdds(m.p, el, x), Test(el, w)), |el.sides|) == 0.0
  {
    var el := m.elements[e];
    NodesSilent(m, x, c, w, e);
    NodePartZero(m.p, el, x, Test(el, w));
    forall j | 0 <= j < |el.sides| ensures SilentSide(m.p, el, x, el.sides[j], Test(el, w)) {
      SideSilent(m, x, c, w, e, j);
    }
    SidePartZero(m.p, el, x, Test(el, w));
  }

  lemma NodesSilent(m: Mesh, x: seq<real>, c: nat, w: nat -> real, e: nat)
    requires Solvable(m, x) && MonotoneTest(m, x, c, w) && e < |m.elements| && IsCarrier(m, c)
    requires SourceFree(m.p, m.elements[e], x, c)
    ensures var el := m.elements[e];
      forall n, k :: 0 <= n < el.nNodes && 0 <= k < |el.dofs| ==>
        Test(el, w)(At(el, k, n)) == 0.0 || NodeValue(m.p, el, x, n, k) == 0.0
  {}

  lemma SideSilent(m: Mesh, x: seq<real>, c: nat, w: nat -> real, e: nat, j: nat)
    requires Solvable(m, x) && MonotoneTest(m, x, c, w) && e < |m.elements| && IsCarrier(m, c)
    requires SourceFree(m.p, m.elements[e], x, c) && j < |m.elements[e].sides|
    ensures SilentSide(m.p, m.elements[e], x, m.elements[e].sides[j], Test(m.elements[e], w))
  {
    hide BoundaryRows, BoundaryValue, Test, At;
    var el := m.elements[e];
    var s := el.sides[j];
    forall i, k | 0 <= i < |s.nodes| && 0 <= k < |el.dofs| ensures Silent(m.p, el, x, s, i, k, Test(el, w)) {
      TestAt(m, e, k, s.nodes[i], w);
      if el.vars[k] == c { assert NoExchange(m.p, el, x, s, i, k); }
    }
  }

  lemma OneFormIsWork(m: Mesh, ex: ExpFun, x: seq<real>, c: nat, w: nat -> real, e: nat)
    requires IsExp(ex) && Solvable(m, x) && MonotoneTest(m, x, c, w) && IsCarrier(m, c)
    requires Lossless(m, x, c) && e < |m.elements|
    ensures ElementForm(m, ex, x, w)(e) == EdgeWorks(m, ex, x, w)(e)
  {
    hide SourceFree, MonotoneTest, ElementAdds, IsCarrier, Test, EdgeTerm, NodeAdds, SideAdds, Sum, Dot, Numbered,
      Increasing;
    ElementSplit(m.p, ex, m.elements[e], x, Test(m.elements[e], w));
    SourcesSilent(m, x, c, w, e);
  }

  /** Without sources the element form is the flux work. */
  lemma FormIsWork(m: Mesh, ex: ExpFun, x: seq<real>, c: nat, w: nat -> real)
    requires IsExp(ex) && Solvable(m, x) && MonotoneTest(m, x, c, w) && IsCarrier(m, c)
    requires Lossless(m, x, c)
    ensures Sum(ElementForm(m, ex, x, w), |m.elements|) == Sum(EdgeWorks(m, ex, x, w), |m.elements|)
  {
    forall e: nat | e < |m.elements| ensures ElementForm(m, ex, x, w)(e) == EdgeWorks(m, ex, x, w)(e) {
      OneFormIsWork(m, ex, x, c, w, e);
    }
    hide *;
    SumEqual(ElementForm(m, ex, x, w), EdgeWorks(m, ex, x, w), |m.elements|);
  }

  /** In steady state, a test function that vanishes on imposed unknowns does no flux work. */
  lemma NoWork(m: Mesh, ex: ExpFun, x: seq<real>, c: nat, w: nat -> real)
    requires IsExp(ex) && Solvable(m, x) && MonotoneTest(m, x, c, w) && IsCarrier(m, c) && SteadyState(m, ex, x, c)
    requires Lossless(m, x, c)
    requires forall g: nat :: g < m.size && m.owner(g) == c && Touches(Imposed(m, x), g) ==> w(g) == 0.0
    ensures Sum(EdgeWorks(m, ex, x, w), |m.elements|) == 0.0
  {
    FormIsWork(m, ex, x, c, w);
    WeakForm(m, ex, x, w);
    var all := Contributions(m, ex, x);
    hide SourceFree, EdgeWorks, ElementForm, Contributions;
    forall g: nat | g < m.size ensures Weighted(all, w)(g) == 0.0 {
      if m.owner(g) == c && !Touches(Imposed(m, x), g) {
        assert Residual(m, ex, x, g) == Entry(all, g);
      } else {
        assert w(g) == 0.0;
      }
    }
    SumZero(Weighted(all, w), m.size);
  }

  function Excess(m: Mesh, x: seq<real>, c: nat, hi: real): nat -> real {
    (d: nat) => if d < |x| && m.owner(d) == c && x[d] > hi then x[d] - hi else 0.0
  }

  function Deficit(m: Mesh, x: seq<real>, c: nat, lo: real): nat -> real {
    (d: nat) => if d < |x| && m.owner(d) == c && x[d] < lo then x[d] - lo else 0.0
  }

  /** A test function that vanishes on imposed unknowns vanishes on the whole carrier. */
  lemma VanishesEverywhere(m: Mesh, ex: ExpFun, x: seq<real>, c: nat, w: nat -> real, g: nat)
    requires IsExp(ex) && Solvable(m, x) && MonotoneTest(m, x, c, w) && IsCarrier(m, c) && SteadyState(m, ex, x, c)
    requires Lossless(m, x, c)
    requires Conducting(m, x, c)
    requires Anchored(m, x, c) && g < m.size && m.owner(g) == c
    requires forall d: nat :: d < m.size && m.owner(d) == c && Touches(Imposed(m, x), d) ==> w(d) == 0.0
    ensures w(g) == 0.0
  {
    hide *;
    NoWork(m, ex, x, c, w);
    var d, path := AnchorOf(m, x, c, g);
    ChainFlat(m, ex, x, c, w, path);
  }

  lemma AnchorOf(m: Mesh, x: seq<real>, c: nat, g: nat) returns (d: nat, path: seq<nat>)
    requires Solvable(m, x) && Anchored(m, x, c) && g < m.size && m.owner(g) == c
    ensures d < m.size && m.owner(d) == c && Touches(Imposed(m, x), d)
    ensures |path| > 0 && Chain(m, c, path) && path[0] == g && path[|path| - 1] == d
  {
    hide Imposed, Touches, Linked, Valid, Chain;
    assert AnchoredAt(m, x, c, g);
    d :| d < m.size && m.owner(d) == c && Touches(Imposed(m, x), d) && Connected(m, c, g, d);
    path :| |path| > 0 && Chain(m, c, path) && path[0] == g && path[|path| - 1] == d;
  }

  /** Discrete maximum principle: without recombination and boundary exchange, every nodal
      quasi-Fermi potential of a steady state lies between the smallest and the largest value
      imposed at the contacts. */
  lemma DiscreteMaximumPrinciple(m: Mesh, ex: ExpFun, x: seq<real>, c: nat, lo: real, hi: real)
    requires IsExp(ex) && Solvable(m, x) && IsCarrier(m, c) && SteadyState(m, ex, x, c)
    requires Lossless(m, x, c)
    requires Conducting(m, x, c)
    requires ContactsWithin(m, x, c, lo, hi) && Anchored(m, x, c)
    ensures forall g: nat :: g < m.size && m.owner(g) == c ==> lo <= x[g] <= hi
  {
    hide Valid, Lossless, Conducting, MonotoneTest, ContactsWithin, Anchored, IsCarrier, SteadyState;
    var up, down := Excess(m, x, c, hi), Deficit(m, x, c, lo);
    BoundTests(m, x, c, lo, hi);
    forall d: nat | d < m.size && m.owner(d) == c && Touches(Imposed(m, x), d)
      ensures up(d) == 0.0 && down(d) == 0.0
    {
      ImposedUnknown(m, ex, x, c, lo, hi, d);
    }
    forall g: nat | g < m.size && m.owner(g) == c ensures lo <= x[g] <= hi {
      hide Imposed, Touches;
      VanishesEverywhere(m, ex, x, c, up, g);
      VanishesEverywhere(m, ex, x, c, down, g);
    }
  }

  lemma ImposedUnknown(m: Mesh, ex: ExpFun, x: seq<real>, c: nat, lo: real, hi: real, d: nat)
    requires IsExp(ex) && Solvable(m, x) && SteadyState(m, ex, x, c) && ContactsWithin(m, x, c, lo, hi)
    requires d < m.size && m.owner(d) == c && Touches(Imposed(m, x), d)
    ensures lo <= x[d] <= hi
  {
    hide Valid, ContactsWithin, Imposed, AllImposedWithin, Touches;
    ImposedBounded(m, x, c, lo, hi);
    PinnedWithin(m, x, c, lo, hi, Imposed(m, x), d);
    assert Residual(m, ex, x, d) == 0.0;
  }

  lemma BoundTests(m: Mesh, x: seq<real>, c: nat, lo: real, hi: real)
    requires Solvable(m, x)
    ensures MonotoneTest(m, x, c, Excess(m, x, c, hi))
    ensures MonotoneTest(m, x, c, Deficit(m, x, c, lo))
  {}
}
