/** What the rows of one variable add up to: fluxes between boxes cancel, and charge, recombination and
    exchange at the boundaries remain, with their scales. */
module BoxTotals {
  import opened Calculus
  import opened Exponential
  import opened EdgeFlux
  import opened Forms
  import opened BoxMesh
  import opened BoxSystem
  import opened BoxBalance

  // ---------------------------------------------------------------------------------------
  // What recombines and what is exchanged

  /** Carriers of block k that recombine in the box of a node. */
  function Recombined(p: Params, el: Element, x: seq<real>, k: nat): nat -> real
    requires Fits(el, x) && k < |el.dofs|
  {
    (n: nat) => if n < el.nNodes then el.volumes[n] * Local(p, el, x, n).rate(k) else 0.0
  }

  /** Charge in the box of a node. */
  function Charged(p: Params, el: Element, x: seq<real>): nat -> real
    requires Fits(el, x)
  {
    (n: nat) => if n < el.nNodes then el.volumes[n] * Local(p, el, x, n).rho else 0.0
  }

  /** What passes a boundary point, for the unknowns that are not imposed there: g - a*phi per area. */
  function PassedAt(p: Params, el: Element, x: seq<real>, s: Side, k: nat): nat -> real
    requires Fits(el, x) && WellFormedSide(el, s) && k < |el.dofs|
  {
    (i: nat) => if i < |s.nodes| && s.Modelled? && !BoundaryRows(p, el, x, s, i)(k).dirichlet then
        var row := BoundaryRows(p, el, x, s, i)(k);
        s.areas[i] * (row.g - row.a * (p.phi0 * x[Dof(el, k, s.nodes[i])]))
      else 0.0
  }

  function Passed(p: Params, el: Element, x: seq<real>, k: nat): nat -> real
    requires Fits(el, x) && k < |el.dofs|
  {
    (j: nat) => if j < |el.sides| then Sum(PassedAt(p, el, x, el.sides[j], k), |el.sides[j].nodes|) else 0.0
  }

  /** Polarization charge at the plain outer boundary. */
  function SurfaceAt(el: Element, s: Side): nat -> real
    requires WellFormedSide(el, s)
  {
    (i: nat) => if i < |s.nodes| && s.Outer? then s.areas[i] * s.normalPolarization[i] else 0.0
  }

  function Surface(el: Element): nat -> real
    requires WellFormed(el)
  {
    (j: nat) => if j < |el.sides| then Sum(SurfaceAt(el, el.sides[j]), |el.sides[j].nodes|) else 0.0
  }

  /** One on the unknowns of block k. */
  ghost predicate OnBlock(el: Element, k: nat, t: SlotTest)
    requires WellFormed(el) && k < |el.dofs|
  {
    forall j: nat, n: nat :: j < |el.dofs| && n < el.nNodes ==> t(At(el, j, n)) == if j == k then 1.0 else 0.0
  }

  // ---------------------------------------------------------------------------------------
  // The parts of an element

  lemma OneTested<R(!new)>(a: Add<R>, w: R -> real)
    ensures w(a.at) == 1.0 ==> Dot([a], w) == a.val
    ensures w(a.at) == 0.0 ==> Dot([a], w) == 0.0
  {
    DotSingle(a, w);
  }

  lemma NodeTested(p: Params, el: Element, x: seq<real>, k: nat, t: SlotTest, n: nat)
    requires p.Positive() && Fits(el, x) && k < |el.dofs| && n < el.nNodes && OnBlock(el, k, t)
    ensures DotOf(NodeAdds(p, el, x), t)(n) == NodeValue(p, el, x, n, k)
  {
    hide NodeValue, Dot, Sum, Flat, At;
    var f := NodeBlock(p, el, x, n);
    DotFlat(f, |el.dofs|, t);
    forall j: nat | j < |el.dofs| ensures DotOf(f, t)(j) == if j == k then NodeValue(p, el, x, n, k) else 0.0 {
      OneTested(Add(At(el, j, n), NodeValue(p, el, x, n, j)), t);
    }
    SumSingle(DotOf(f, t), k, |el.dofs|);
  }

  lemma NoEdges(p: Params, ex: ExpFun, el: Element, x: seq<real>, k: nat, t: SlotTest)
    requires IsExp(ex) && p.Positive() && Fits(el, x) && k < |el.dofs| && OnBlock(el, k, t)
    ensures Sum(EdgeTerm(p, ex, el, x, t), |el.edges|) == 0.0
  {
    hide OneEdgeTerm, Sum, OnBlock;
    forall i: nat | i < |el.edges| ensures EdgeTerm(p, ex, el, x, t)(i) == 0.0 {
      NoEdge(p, ex, el, x, el.edges[i], k, t);
    }
    SumZero(EdgeTerm(p, ex, el, x, t), |el.edges|);
  }

  lemma NoEdge(p: Params, ex: ExpFun, el: Element, x: seq<real>, e: Edge, k: nat, t: SlotTest)
    requires IsExp(ex) && p.Positive() && Fits(el, x) && WellFormedEdge(el, e) && k < |el.dofs| && OnBlock(el, k, t)
    ensures OneEdgeTerm(p, ex, el, x, e, t) == 0.0
  {
    hide PoissonFlux, CarrierFlux, Sum;
    forall j: nat | j < |el.dofs| ensures CarrierTerm(p, ex, el, x, e, t)(j) == 0.0 {
      if j != el.u {
        var jump, flux := Jump(el, e, j, t), CarrierFlux(p, ex, el, x, e, j);
        Nothing(jump, flux);
        assert CarrierTerm(p, ex, el, x, e, t)(j) == jump * flux;
      }
    }
    Nothing(Jump(el, e, el.u, t), PoissonFlux(p, el, x, e));
    hide CarrierTerm;
    SumZero(CarrierTerm(p, ex, el, x, e, t), |el.dofs|);
  }

  lemma Nothing(j: real, f: real)
    requires j == 0.0
    ensures j * f == 0.0
  {}

  /** A boundary point with a model. */
  lemma PointTested(p: Params, el: Element, x: seq<real>, s: Side, k: nat, t: SlotTest, i: nat)
    requires p.Positive() && Fits(el, x) && WellFormedSide(el, s) && k < |el.dofs| && i < |s.nodes| && OnBlock(el, k, t)
    requires s.Modelled?
    ensures DotOf(SidePoint(p, el, x, s), t)(i)
      == if BoundaryRows(p, el, x, s, i)(k).dirichlet then 0.0
         else -(SideScale(p, el, s, i, k) * BoundaryValue(p, el, x, s, i, k))
  {
    hide SideScale, BoundaryValue, BoundaryRows, Dot, Sum, Flat, At;
    var f := SideBlock(p, el, x, s, i);
    DotFlat(f, |el.dofs|, t);
    forall j: nat | j < |el.dofs|
      ensures DotOf(f, t)(j)
        == if j == k && !BoundaryRows(p, el, x, s, i)(k).dirichlet then SideAdd(p, el, x, s, i, k).val
           else 0.0
    {
      if !BoundaryRows(p, el, x, s, i)(j).dirichlet {
        OneTested(SideAdd(p, el, x, s, i, j), t);
      } else {
        DotEmpty(t);
      }
    }
    SumSingle(DotOf(f, t), k, |el.dofs|);
  }

  lemma OuterTested(p: Params, el: Element, x: seq<real>, s: Side, k: nat, t: SlotTest, i: nat)
    requires p.Positive() && Fits(el, x) && WellFormedSide(el, s) && k < |el.dofs| && i < |s.nodes| && OnBlock(el, k, t)
    requires s.Outer?
    ensures DotOf(SidePoint(p, el, x, s), t)(i)
      == if k == el.u then -(s.areas[i] * s.normalPolarization[i]) else 0.0
  {
    hide Dot, At;
    OneTested(OuterAdd(p, el, s, i), t);
  }

  // ---------------------------------------------------------------------------------------
  // Totals

  lemma Quotient(sign: real, v: real, r: real, c: real)
    requires c > 0.0
    ensures v * r / c == 1.0 / c * (v * r)
    ensures sign == 1.0 || sign == -1.0 ==> sign * (sign * (v * r / c)) == v * r / c
  {}

  lemma Scaled2(a: real, x0: real, c: real, v: real)
    requires x0 > 0.0 && c > 0.0
    ensures a / x0 / c * v == 1.0 / (x0 * c) * (a * v)
  {
    var q := a / x0;
    var r := q / c;
    Positive(x0, c);
    var k := 1.0 / (x0 * c);
    assert q * x0 == a && r * c == q && k * (x0 * c) == 1.0;
    assert r * (x0 * c) == a;
    assert r == k * a by { assert k * a == k * (r * (x0 * c)) == r * (k * (x0 * c)); }
  }

  /** The sum of the node parts of block k. */
  lemma NodeTotal(p: Params, el: Element, x: seq<real>, k: nat, t: SlotTest)
    requires p.Positive() && Fits(el, x) && k < |el.dofs| && OnBlock(el, k, t)
    ensures Sum(DotOf(NodeAdds(p, el, x), t), el.nNodes)
      == if k == el.u then -(1.0 / p.c0) * Sum(Charged(p, el, x), el.nNodes)
         else Signed(el.positive[k], 1.0 / p.r0) * Sum(Recombined(p, el, x, k), el.nNodes)
  {
    hide Sum, NodeAdds, Local, OnBlock;
    var f := DotOf(NodeAdds(p, el, x), t);
    forall n: nat | n < el.nNodes
      ensures f(n) == if k == el.u then -(1.0 / p.c0) * Charged(p, el, x)(n)
                      else Signed(el.positive[k], 1.0 / p.r0) * Recombined(p, el, x, k)(n)
    {
      NodeTested(p, el, x, k, t, n);
      var d := Local(p, el, x, n);
      Quotient(1.0, el.volumes[n], d.rho, p.c0);
      Quotient(1.0, el.volumes[n], d.rate(k), p.r0);
    }
    if k == el.u {
      SumScale(Charged(p, el, x), -(1.0 / p.c0), f, el.nNodes);
    } else {
      SumScale(Recombined(p, el, x, k), Signed(el.positive[k], 1.0 / p.r0), f, el.nNodes);
    }
  }

  /** One side of the element. */
  lemma SideTotal(p: Params, el: Element, x: seq<real>, k: nat, t: SlotTest, j: nat)
    requires p.Positive() && Fits(el, x) && k < |el.dofs| && OnBlock(el, k, t) && j < |el.sides|
    ensures DotOf(SideAdds(p, el, x), t)(j)
      == SideFactor(p, el, k) * Passed(p, el, x, k)(j) + OuterFactor(el, k) * Surface(el)(j)
  {
    hide Sum, OnBlock, SidePoint, PassedAt, SurfaceAt, SideAdds, SideFactor, OuterFactor;
    var s := el.sides[j];
    SideAddsAt(p, el, x, t, j);
    hide DotOf;
    var f := DotOf(SidePoint(p, el, x, s), t);
    forall i: nat | i < |s.nodes|
      ensures f(i) == SideFactor(p, el, k) * PassedAt(p, el, x, s, k)(i) + OuterFactor(el, k) * SurfaceAt(el, s)(i)
    {
      OnePoint(p, el, x, s, k, t, i);
    }
    TwoSums(PassedAt(p, el, x, s, k), SideFactor(p, el, k), SurfaceAt(el, s), OuterFactor(el, k), f, |s.nodes|);
  }

  function OuterFactor(el: Element, k: nat): real { if k == el.u then -1.0 else 0.0 }

  lemma SideAddsAt(p: Params, el: Element, x: seq<real>, t: SlotTest, j: nat)
    requires p.Positive() && Fits(el, x) && j < |el.sides|
    ensures DotOf(SideAdds(p, el, x), t)(j) == Sum(DotOf(SidePoint(p, el, x, el.sides[j]), t), |el.sides[j].nodes|)
  {
    hide SidePoint, Flat, Sum, Dot;
    DotFlat(SidePoint(p, el, x, el.sides[j]), |el.sides[j].nodes|, t);
  }

  function SideFactor(p: Params, el: Element, k: nat): real
    requires p.Positive() && WellFormed(el) && k < |el.dofs|
  {
    Positive(p.x0, p.c0);
    Positive(p.x0, p.r0);
    if k == el.u then -(1.0 / (p.x0 * p.c0)) else Signed(el.positive[k], 1.0 / (p.x0 * p.r0))
  }

  lemma OnePoint(p: Params, el: Element, x: seq<real>, s: Side, k: nat, t: SlotTest, i: nat)
    requires p.Positive() && Fits(el, x) && WellFormedSide(el, s) && k < |el.dofs| && i < |s.nodes| && OnBlock(el, k, t)
    ensures DotOf(SidePoint(p, el, x, s), t)(i)
      == SideFactor(p, el, k) * PassedAt(p, el, x, s, k)(i) + OuterFactor(el, k) * SurfaceAt(el, s)(i)
  {
    hide DotOf, SidePoint, OnBlock, BoundaryRows;
    if s.Modelled? {
      PointTested(p, el, x, s, k, t, i);
      if !BoundaryRows(p, el, x, s, i)(k).dirichlet { PassedScaled(p, el, x, s, k, i); }
    } else {
      OuterTested(p, el, x, s, k, t, i);
    }
  }

  lemma PassedScaled(p: Params, el: Element, x: seq<real>, s: Side, k: nat, i: nat)
    requires p.Positive() && Fits(el, x) && WellFormedSide(el, s) && k < |el.dofs| && i < |s.nodes| && s.Modelled?
    requires !BoundaryRows(p, el, x, s, i)(k).dirichlet
    ensures -(SideScale(p, el, s, i, k) * BoundaryValue(p, el, x, s, i, k))
      == SideFactor(p, el, k) * PassedAt(p, el, x, s, k)(i)
  {
    hide BoundaryRows;
    var v, a := BoundaryValue(p, el, x, s, i, k), s.areas[i];
    Scaled2(a, p.x0, p.c0, v);
    Scaled2(a, p.x0, p.r0, v);
    assert PassedAt(p, el, x, s, k)(i) == a * v;
  }

  lemma {:induction false} TwoSums(f: nat -> real, a: real, g: nat -> real, b: real, s: nat -> real, n: nat)
    requires forall i: nat :: i < n ==> s(i) == a * f(i) + b * g(i)
    ensures Sum(s, n) == a * Sum(f, n) + b * Sum(g, n)
  {
    if n > 0 {
      TwoSums(f, a, g, b, s, n - 1);
      Distribute(a, Sum(f, n - 1), f(n - 1));
      Distribute(b, Sum(g, n - 1), g(n - 1));
    }
  }

  /** One element: a carrier's contributions add up to what recombines in the boxes and what passes the
      boundaries, with the sign of its charge; the potential's to minus all charge. */
  lemma ElementTotal(p: Params, ex: ExpFun, el: Element, x: seq<real>, k: nat, t: SlotTest)
    requires IsExp(ex) && p.Positive() && Fits(el, x) && k < |el.dofs| && OnBlock(el, k, t)
    ensures p.x0 * p.c0 > 0.0 && p.x0 * p.r0 > 0.0
    ensures Dot(ElementAdds(p, ex, el, x), t)
      == if k == el.u then
           -(1.0 / p.c0) * Sum(Charged(p, el, x), el.nNodes)
           - 1.0 / (p.x0 * p.c0) * Sum(Passed(p, el, x, k), |el.sides|) - Sum(Surface(el), |el.sides|)
         else
           Signed(el.positive[k], 1.0 / p.r0) * Sum(Recombined(p, el, x, k), el.nNodes)
           + Signed(el.positive[k], 1.0 / (p.x0 * p.r0)) * Sum(Passed(p, el, x, k), |el.sides|)
  {
    hide Sum, ElementAdds, Passed, Surface, Charged, Recombined, OnBlock, NodeAdds, SideAdds, EdgeTerm, DotOf;
    ElementSplit(p, ex, el, x, t);
    NodeTotal(p, el, x, k, t);
    NoEdges(p, ex, el, x, k, t);
    var f := DotOf(SideAdds(p, el, x), t);
    forall j: nat | j < |el.sides|
      ensures f(j) == SideFactor(p, el, k) * Passed(p, el, x, k)(j) + OuterFactor(el, k) * Surface(el)(j)
    {
      SideTotal(p, el, x, k, t, j);
    }
    TwoSums(Passed(p, el, x, k), SideFactor(p, el, k), Surface(el), OuterFactor(el, k), f, |el.sides|);
    Positive(p.x0, p.c0);
    Positive(p.x0, p.r0);
  }

  // ---------------------------------------------------------------------------------------
  // The mesh

  /** What stays of block k of one element. */
  function Kept(p: Params, el: Element, x: seq<real>, k: nat): real
    requires p.Positive() && Fits(el, x) && k < |el.dofs|
  {
    Positive(p.x0, p.c0);
    Positive(p.x0, p.r0);
    if k == el.u then
      -(1.0 / p.c0) * Sum(Charged(p, el, x), el.nNodes)
      - 1.0 / (p.x0 * p.c0) * Sum(Passed(p, el, x, k), |el.sides|) - Sum(Surface(el), |el.sides|)
    else
      Signed(el.positive[k], 1.0 / p.r0) * Sum(Recombined(p, el, x, k), el.nNodes)
      + Signed(el.positive[k], 1.0 / (p.x0 * p.r0)) * Sum(Passed(p, el, x, k), |el.sides|)
  }

  /** Position of a variable in an element; |vars| if it is not there. */
  function BlockOf(vars: seq<nat>, c: nat): (k: nat)
    ensures k <= |vars| && (k < |vars| ==> vars[k] == c) && (k == |vars| ==> c !in vars)
  {
    if vars == [] then 0 else if vars[0] == c then 0 else BlockOf(vars[1..], c) + 1
  }

  function KeptIn(m: Mesh, x: seq<real>, c: nat): nat -> real
    requires Solvable(m, x)
  {
    (e: nat) => if e < |m.elements| && BlockOf(m.elements[e].vars, c) < |m.elements[e].vars| then
        Kept(m.p, m.elements[e], x, BlockOf(m.elements[e].vars, c))
      else 0.0
  }

  function OwnedBy(m: Mesh, c: nat): nat -> real {
    (g: nat) => if m.owner(g) == c then 1.0 else 0.0
  }

  lemma OwnedAt(m: Mesh, el: Element, c: nat, k: nat, n: nat)
    requires WellFormed(el) && Numbered(m, el) && k < |el.dofs| && n < el.nNodes
    ensures Test(el, OwnedBy(m, c))(At(el, k, n)) == if el.vars[k] == c then 1.0 else 0.0
  {
    assert m.owner(el.dofs[k][Id(el, k, n)]) == el.vars[k];
  }

  /** The test is one on one block of the element, or on none. */
  lemma OwnedBlock(m: Mesh, el: Element, c: nat)
    requires WellFormed(el) && Numbered(m, el) && Increasing(el.vars)
    ensures forall k: nat, n: nat :: k < |el.dofs| && n < el.nNodes ==>
      Test(el, OwnedBy(m, c))(At(el, k, n)) == if k == BlockOf(el.vars, c) then 1.0 else 0.0
  {
    var b := BlockOf(el.vars, c);
    hide OwnedBy, Test, At, BlockOf;
    forall k: nat, n: nat | k < |el.dofs| && n < el.nNodes
      ensures Test(el, OwnedBy(m, c))(At(el, k, n)) == if k == b then 1.0 else 0.0
    {
      OwnedAt(m, el, c, k, n);
      if k < b < |el.vars| { assert el.vars[k] < el.vars[b]; }
      if b < k { assert el.vars[b] < el.vars[k]; }
    }
  }

  lemma ElementOwned(m: Mesh, ex: ExpFun, x: seq<real>, c: nat, e: nat)
    requires IsExp(ex) && Solvable(m, x) && e < |m.elements|
    ensures ElementForm(m, ex, x, OwnedBy(m, c))(e) == KeptIn(m, x, c)(e)
  {
    hide ElementAdds, Kept, OwnedBy, Test, Covers, At, BlockOf;
    var el := m.elements[e];
    OwnedBlock(m, el, c);
    hide Valid, Numbered, Increasing;
    FormOfBlock(m.p, ex, el, x, BlockOf(el.vars, c), Test(el, OwnedBy(m, c)));
  }

  lemma FormOfBlock(p: Params, ex: ExpFun, el: Element, x: seq<real>, b: nat, t: SlotTest)
    requires IsExp(ex) && p.Positive() && Fits(el, x)
    requires forall k: nat, n: nat :: k < |el.dofs| && n < el.nNodes ==> t(At(el, k, n)) == if k == b then 1.0 else 0.0
    ensures Dot(ElementAdds(p, ex, el, x), t) == if b < |el.dofs| then Kept(p, el, x, b) else 0.0
  {
    hide ElementAdds, Kept, At, Covers;
    if b < |el.dofs| {
      assert OnBlock(el, b, t);
      ElementTotal(p, ex, el, x, b, t);
      KeptIs(p, el, x, b);
    } else {
      NotThere(p, ex, el, x, t);
    }
  }

  lemma KeptIs(p: Params, el: Element, x: seq<real>, k: nat)
    requires p.Positive() && Fits(el, x) && k < |el.dofs|
    ensures p.x0 * p.c0 > 0.0 && p.x0 * p.r0 > 0.0
    ensures Kept(p, el, x, k)
      == if k == el.u then
           -(1.0 / p.c0) * Sum(Charged(p, el, x), el.nNodes)
           - 1.0 / (p.x0 * p.c0) * Sum(Passed(p, el, x, k), |el.sides|) - Sum(Surface(el), |el.sides|)
         else
           Signed(el.positive[k], 1.0 / p.r0) * Sum(Recombined(p, el, x, k), el.nNodes)
           + Signed(el.positive[k], 1.0 / (p.x0 * p.r0)) * Sum(Passed(p, el, x, k), |el.sides|)
  {
    Positive(p.x0, p.c0);
    Positive(p.x0, p.r0);
  }

  lemma NotThere(p: Params, ex: ExpFun, el: Element, x: seq<real>, t: SlotTest)
    requires IsExp(ex) && p.Positive() && Fits(el, x)
    requires forall k: nat, n: nat :: k < |el.dofs| && n < el.nNodes ==> t(At(el, k, n)) == 0.0
    ensures Dot(ElementAdds(p, ex, el, x), t) == 0.0
  {
    hide ElementAdds, NodeValue, At, Sum;
    ElementSplit(p, ex, el, x, t);
    NodePartZero(p, el, x, t);
    forall j | 0 <= j < |el.sides| ensures SilentSide(p, el, x, el.sides[j], t) {}
    SidePartZero(p, el, x, t);
    NoEdgesAtAll(p, ex, el, x, t);
  }

  lemma NoEdgesAtAll(p: Params, ex: ExpFun, el: Element, x: seq<real>, t: SlotTest)
    requires IsExp(ex) && p.Positive() && Fits(el, x)
    requires forall k: nat, n: nat :: k < |el.dofs| && n < el.nNodes ==> t(At(el, k, n)) == 0.0
    ensures Sum(EdgeTerm(p, ex, el, x, t), |el.edges|) == 0.0
  {
    hide Sum, PoissonFlux, CarrierFlux;
    forall i: nat | i < |el.edges| ensures EdgeTerm(p, ex, el, x, t)(i) == 0.0 {
      var e := el.edges[i];
      forall j: nat | j < |el.dofs| ensures CarrierTerm(p, ex, el, x, e, t)(j) == 0.0 {
        if j != el.u {
          var jump, flux := Jump(el, e, j, t), CarrierFlux(p, ex, el, x, e, j);
          Nothing(jump, flux);
          assert CarrierTerm(p, ex, el, x, e, t)(j) == jump * flux;
        }
      }
      hide CarrierTerm;
      SumZero(CarrierTerm(p, ex, el, x, e, t), |el.dofs|);
      Nothing(Jump(el, e, el.u, t), PoissonFlux(p, el, x, e));
    }
    hide EdgeTerm;
    SumZero(EdgeTerm(p, ex, el, x, t), |el.edges|);
  }

  /** The rows of one variable, before any is imposed, add up to what recombines and passes the boundaries;
      no flux between boxes is left. */
  lemma RowsAddUp(m: Mesh, ex: ExpFun, x: seq<real>, c: nat)
    requires IsExp(ex) && Solvable(m, x)
    ensures Sum(Weighted(Contributions(m, ex, x), OwnedBy(m, c)), m.size) == Sum(KeptIn(m, x, c), |m.elements|)
  {
    hide ElementForm, KeptIn, Contributions, OwnedBy, Weighted, Sum;
    WeakForm(m, ex, x, OwnedBy(m, c));
    forall e: nat | e < |m.elements| ensures ElementForm(m, ex, x, OwnedBy(m, c))(e) == KeptIn(m, x, c)(e) {
      ElementOwned(m, ex, x, c, e);
    }
    SumEqual(ElementForm(m, ex, x, OwnedBy(m, c)), KeptIn(m, x, c), |m.elements|);
  }

  // ---------------------------------------------------------------------------------------
  // Imposed rows

  /** An imposed row with coefficient one is the scaled unknown minus the scaled value it has to take. */
  lemma ImposedIsDifference(p: Params, el: Element, x: seq<real>, s: Side, i: nat, k: nat)
    requires p.Positive() && Fits(el, x) && WellFormedSide(el, s) && s.Modelled? && i < |s.nodes| && k < |el.dofs|
    requires BoundaryRows(p, el, x, s, i)(k).a == 1.0
    ensures DirichletAdd(p, el, x, s, i, k)
      == Add(Dof(el, k, s.nodes[i]), x[Dof(el, k, s.nodes[i])] - BoundaryRows(p, el, x, s, i)(k).g / p.phi0)
  {
    hide BoundaryRows;
    Unscaled(BoundaryRows(p, el, x, s, i)(k).g, p.phi0, x[Dof(el, k, s.nodes[i])]);
  }

  lemma Unscaled(g: real, phi0: real, u: real)
    requires phi0 > 0.0
    ensures -((g - 1.0 * (phi0 * u)) / phi0) == u - g / phi0
  {
    var q := g / phi0;
    assert q * phi0 == g;
    assert g - 1.0 * (phi0 * u) == (q - u) * phi0;
  }

  /** The physical models of a node are given the potentials in volts: the unknowns times their scale. */
  lemma ModelsSeeVolts(p: Params, el: Element, x: seq<real>, n: nat, pots: seq<real>)
    requires Fits(el, x) && n < el.nNodes && |pots| == |el.dofs|
    requires forall k: nat :: k < |el.dofs| ==> pots[k] == p.phi0 * x[Dof(el, k, n)]
    ensures Local(p, el, x, n) == el.model(n, pots)
  {
    var volts := Potentials(p, el, x, n);
    forall k: nat | k < |pots| ensures volts[k] == pots[k] {
      assert Potential(el, x, k, n) == x[Dof(el, k, n)];
    }
    assert volts == pots;
  }
}
