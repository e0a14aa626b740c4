/** What the assembled residual conserves and dissipates, for every mesh and every state. */
module BoxBalance {
  import opened Calculus
  import opened Exponential
  import opened EdgeFlux
  import opened Forms
  import opened BoxMesh
  import opened BoxSystem

  type SlotTest = Slot -> real

  /** Difference of a test function across an edge. */
  function Jump(el: Element, e: Edge, k: nat, t: SlotTest): real
    requires WellFormed(el) && WellFormedEdge(el, e) && k < |el.dofs|
  {
    t(At(el, k, e.n1)) - t(At(el, k, e.n2))
  }

  lemma DotAcross(el: Element, e: Edge, k: nat, f: real, t: SlotTest)
    requires WellFormed(el) && WellFormedEdge(el, e) && k < |el.dofs|
    ensures Dot(Across(el, e, k, f), t) == Jump(el, e, k, t) * f
  {
    var a, b := Add(At(el, k, e.n1), f), Add(At(el, k, e.n2), -f);
    assert Across(el, e, k, f) == ([] + [a]) + [b];
    DotAppend([], a, t);
    DotAppend([] + [a], b, t);
    JumpTimes(t(a.at), t(b.at), f);
  }

  lemma JumpTimes(x: real, y: real, f: real)
    ensures x * f + y * -f == (x - y) * f
  {}

  /** The flux of a carrier block across an edge, tested with t. */
  function CarrierTerm(p: Params, ex: ExpFun, el: Element, x: seq<real>, e: Edge, t: SlotTest): nat -> real
    requires IsExp(ex) && p.Positive() && Fits(el, x) && WellFormedEdge(el, e)
  {
    (k: nat) => if k < |el.dofs| && k != el.u then Jump(el, e, k, t) * CarrierFlux(p, ex, el, x, e, k) else 0.0
  }

  function OneEdgeTerm(p: Params, ex: ExpFun, el: Element, x: seq<real>, e: Edge, t: SlotTest): real
    requires IsExp(ex) && p.Positive() && Fits(el, x) && WellFormedEdge(el, e)
  {
    Jump(el, e, el.u, t) * PoissonFlux(p, el, x, e) + Sum(CarrierTerm(p, ex, el, x, e, t), |el.dofs|)
  }

  function EdgeTerm(p: Params, ex: ExpFun, el: Element, x: seq<real>, t: SlotTest): nat -> real
    requires IsExp(ex) && p.Positive() && Fits(el, x)
  {
    (i: nat) => if i < |el.edges| then OneEdgeTerm(p, ex, el, x, el.edges[i], t) else 0.0
  }

  lemma OneEdgeTested(p: Params, ex: ExpFun, el: Element, x: seq<real>, e: Edge, t: SlotTest)
    requires IsExp(ex) && p.Positive() && Fits(el, x) && WellFormedEdge(el, e)
    ensures Dot(OneEdge(p, ex, el, x, e), t) == OneEdgeTerm(p, ex, el, x, e, t)
  {
    hide PoissonFlux, CarrierBlock, CarrierTerm, Jump, Across, Dot, Sum, Flat;
    CarrierAddsTested(p, ex, el, x, e, t);
    DotConcat(Across(el, e, el.u, PoissonFlux(p, el, x, e)), Flat(CarrierBlock(p, ex, el, x, e), |el.dofs|), t);
    DotAcross(el, e, el.u, PoissonFlux(p, el, x, e), t);
  }

  lemma CarrierAddsTested(p: Params, ex: ExpFun, el: Element, x: seq<real>, e: Edge, t: SlotTest)
    requires IsExp(ex) && p.Positive() && Fits(el, x) && WellFormedEdge(el, e)
    ensures Dot(Flat(CarrierBlock(p, ex, el, x, e), |el.dofs|), t) == Sum(CarrierTerm(p, ex, el, x, e, t), |el.dofs|)
  {
    hide CarrierFlux, Across, Jump, WellFormed, Covers, WellFormedEdge, Dot, Sum, Flat;
    DotFlat(CarrierBlock(p, ex, el, x, e), |el.dofs|, t);
    forall k: nat | k < |el.dofs|
      ensures DotOf(CarrierBlock(p, ex, el, x, e), t)(k) == CarrierTerm(p, ex, el, x, e, t)(k)
    {
      if k != el.u { DotAcross(el, e, k, CarrierFlux(p, ex, el, x, e, k), t); } else { DotEmpty(t); }
    }
    SumEqual(DotOf(CarrierBlock(p, ex, el, x, e), t), CarrierTerm(p, ex, el, x, e, t), |el.dofs|);
  }

  /** The element form, part by part. */
  lemma ElementSplit(p: Params, ex: ExpFun, el: Element, x: seq<real>, t: SlotTest)
    requires IsExp(ex) && p.Positive() && Fits(el, x)
    ensures Dot(ElementAdds(p, ex, el, x), t)
         == Sum(DotOf(NodeAdds(p, el, x), t), el.nNodes)
          + Sum(EdgeTerm(p, ex, el, x, t), |el.edges|)
          + Sum(DotOf(SideAdds(p, el, x), t), |el.sides|)
  {
    var a, b, c := Flat(NodeAdds(p, el, x), el.nNodes), Flat(EdgeAdds(p, ex, el, x), |el.edges|),
      Flat(SideAdds(p, el, x), |el.sides|);
    DotConcat(a + b, c, t);
    DotConcat(a, b, t);
    DotFlat(NodeAdds(p, el, x), el.nNodes, t);
    DotFlat(SideAdds(p, el, x), |el.sides|, t);
    EdgesTested(p, ex, el, x, t);
  }

  lemma DotEmpty(t: SlotTest)
    ensures Dot([], t) == 0.0
  {}

  lemma DotSingleZero(a: Add<Slot>, t: SlotTest)
    requires t(a.at) == 0.0 || a.val == 0.0
    ensures Dot([a], t) == 0.0
  {}

  /** Node contributions drop out where the test function or the source vanishes. */
  lemma NodePartZero(p: Params, el: Element, x: seq<real>, t: SlotTest)
    requires p.Positive() && Fits(el, x)
    requires forall n, k :: 0 <= n < el.nNodes && 0 <= k < |el.dofs| ==>
      t(At(el, k, n)) == 0.0 || NodeValue(p, el, x, n, k) == 0.0
    ensures Sum(DotOf(NodeAdds(p, el, x), t), el.nNodes) == 0.0
  {
    forall n: nat | n < el.nNodes ensures DotOf(NodeAdds(p, el, x), t)(n) == 0.0 {
      hide NodeValue;
      DotFlat(NodeBlock(p, el, x, n), |el.dofs|, t);
      forall k: nat | k < |el.dofs| ensures DotOf(NodeBlock(p, el, x, n), t)(k) == 0.0 {
        DotSingleZero(Add(At(el, k, n), NodeValue(p, el, x, n, k)), t);
      }
      SumZero(DotOf(NodeBlock(p, el, x, n), t), |el.dofs|);
    }
    SumZero(DotOf(NodeAdds(p, el, x), t), el.nNodes);
  }

  /** A boundary entry that cannot matter: the test function vanishes there, a carrier meets a
      plain outer boundary, the row is a Dirichlet row, or the boundary condition is met. */
  ghost predicate Silent(p: Params, el: Element, x: seq<real>, s: Side, i: nat, k: nat, t: SlotTest)
    requires p.Positive() && Fits(el, x) && WellFormedSide(el, s) && i < |s.nodes| && k < |el.dofs|
  {
    || t(At(el, k, s.nodes[i])) == 0.0
    || (s.Outer? && k != el.u)
    || (s.Modelled? && (BoundaryRows(p, el, x, s, i)(k).dirichlet || BoundaryValue(p, el, x, s, i, k) == 0.0))
  }

  ghost predicate SilentSide(p: Params, el: Element, x: seq<real>, s: Side, t: SlotTest)
    requires p.Positive() && Fits(el, x) && WellFormedSide(el, s)
  {
    forall i, k :: 0 <= i < |s.nodes| && 0 <= k < |el.dofs| ==> Silent(p, el, x, s, i, k, t)
  }

  lemma SideBlockZero(p: Params, el: Element, x: seq<real>, s: Side, i: nat, t: SlotTest)
    requires p.Positive() && Fits(el, x) && WellFormedSide(el, s) && i < |s.nodes| && s.Modelled?
    requires forall k :: 0 <= k < |el.dofs| ==> Silent(p, el, x, s, i, k, t)
    ensures Dot(Flat(SideBlock(p, el, x, s, i), |el.dofs|), t) == 0.0
  {
    hide SideScale, BoundaryValue, BoundaryRows, Sum, Flat, Covers;
    DotFlat(SideBlock(p, el, x, s, i), |el.dofs|, t);
    forall k: nat | k < |el.dofs| ensures DotOf(SideBlock(p, el, x, s, i), t)(k) == 0.0 {
      assert Silent(p, el, x, s, i, k, t);
      if !BoundaryRows(p, el, x, s, i)(k).dirichlet {
        DotSingleZero(SideAdd(p, el, x, s, i, k), t);
      } else {
        DotEmpty(t);
      }
    }
    SumZero(DotOf(SideBlock(p, el, x, s, i), t), |el.dofs|);
  }

  lemma OneSideZero(p: Params, el: Element, x: seq<real>, s: Side, t: SlotTest)
    requires p.Positive() && Fits(el, x) && WellFormedSide(el, s) && SilentSide(p, el, x, s, t)
    ensures Dot(Flat(SidePoint(p, el, x, s), |s.nodes|), t) == 0.0
  {
    DotFlat(SidePoint(p, el, x, s), |s.nodes|, t);
    forall i: nat | i < |s.nodes| ensures DotOf(SidePoint(p, el, x, s), t)(i) == 0.0 {
      if s.Modelled? {
        SideBlockZero(p, el, x, s, i, t);
      } else {
        assert Silent(p, el, x, s, i, el.u, t);
        DotSingleZero(OuterAdd(p, el, s, i), t);
      }
    }
    SumZero(DotOf(SidePoint(p, el, x, s), t), |s.nodes|);
  }

  lemma SidePartZero(p: Params, el: Element, x: seq<real>, t: SlotTest)
    requires p.Positive() && Fits(el, x)
    requires forall j :: 0 <= j < |el.sides| ==> SilentSide(p, el, x, el.sides[j], t)
    ensures Sum(DotOf(SideAdds(p, el, x), t), |el.sides|) == 0.0
  {
    forall j: nat | j < |el.sides| ensures DotOf(SideAdds(p, el, x), t)(j) == 0.0 {
      var s := el.sides[j];
      assert SilentSide(p, el, x, s, t);
      OneSideZero(p, el, x, s, t);
    }
    SumZero(DotOf(SideAdds(p, el, x), t), |el.sides|);
  }

  // ---------------------------------------------------------------------------------------
  // The flux part of the residual

  /** Edge contributions of one element, globally numbered. */
  function FluxElement(m: Mesh, ex: ExpFun, x: seq<real>): nat -> seq<Add<nat>>
    requires IsExp(ex) && Solvable(m, x)
  {
    (e: nat) => if e < |m.elements| then
        EdgesInRange(m.p, ex, m.elements[e], x);
        Relabel(m.elements[e], Flat(EdgeAdds(m.p, ex, m.elements[e], x), |m.elements[e].edges|))
      else []
  }

  /** Row g of the assembled flux residual: what all edges add to it. */
  function FluxResidual(m: Mesh, ex: ExpFun, x: seq<real>, g: nat): real
    requires IsExp(ex) && Solvable(m, x)
  {
    Entry(Flat(FluxElement(m, ex, x), |m.elements|), g)
  }

  /** Edge part of the element form: the flux work of all edges of element e. */
  function EdgeWorkOf(m: Mesh, ex: ExpFun, x: seq<real>, w: nat -> real, e: nat): real
    requires IsExp(ex) && Solvable(m, x) && e < |m.elements|
  {
    Sum(EdgeTerm(m.p, ex, m.elements[e], x, Test(m.elements[e], w)), |m.elements[e].edges|)
  }

  function EdgeWorks(m: Mesh, ex: ExpFun, x: seq<real>, w: nat -> real): nat -> real
    requires IsExp(ex) && Solvable(m, x)
  {
    (e: nat) => if e < |m.elements| then EdgeWorkOf(m, ex, x, w, e) else 0.0
  }

  function WeightedFlux(m: Mesh, ex: ExpFun, x: seq<real>, w: nat -> real): nat -> real
    requires IsExp(ex) && Solvable(m, x)
  {
    (g: nat) => w(g) * FluxResidual(m, ex, x, g)
  }

  lemma EdgesTested(p: Params, ex: ExpFun, el: Element, x: seq<real>, t: SlotTest)
    requires IsExp(ex) && p.Positive() && Fits(el, x)
    ensures Dot(Flat(EdgeAdds(p, ex, el, x), |el.edges|), t) == Sum(EdgeTerm(p, ex, el, x, t), |el.edges|)
  {
    DotFlat(EdgeAdds(p, ex, el, x), |el.edges|, t);
    hide OneEdge, OneEdgeTerm;
    forall i: nat | i < |el.edges| ensures DotOf(EdgeAdds(p, ex, el, x), t)(i) == EdgeTerm(p, ex, el, x, t)(i) {
      OneEdgeTested(p, ex, el, x, el.edges[i], t);
    }
    hide EdgeAdds, EdgeTerm;
    SumEqual(DotOf(EdgeAdds(p, ex, el, x), t), EdgeTerm(p, ex, el, x, t), |el.edges|);
  }

  lemma FluxElementBelow(m: Mesh, ex: ExpFun, x: seq<real>, e: nat)
    requires IsExp(ex) && Solvable(m, x) && e < |m.elements|
    ensures PlacesBelow(FluxElement(m, ex, x)(e), m.size)
  {
    var el := m.elements[e];
    EdgesInRange(m.p, ex, el, x);
    var adds := Flat(EdgeAdds(m.p, ex, el, x), |el.edges|);
    hide EdgeAdds, Flat;
    forall i | 0 <= i < |adds| ensures DofOf(el, adds[i].at) < m.size {
      assert InRange(el, adds[i].at);
    }
  }

  lemma FluxElementTested(m: Mesh, ex: ExpFun, x: seq<real>, w: nat -> real, e: nat)
    requires IsExp(ex) && Solvable(m, x) && e < |m.elements|
    ensures Dot(FluxElement(m, ex, x)(e), w) == EdgeWorkOf(m, ex, x, w, e)
  {
    hide EdgeAdds, EdgeTerm, Flat, Sum, Dot;
    var el := m.elements[e];
    EdgesInRange(m.p, ex, el, x);
    DotRelabel(el, Flat(EdgeAdds(m.p, ex, el, x), |el.edges|), w);
    EdgesTested(m.p, ex, el, x, Test(el, w));
  }

  /** Summation by parts for the fluxes: the flux residual weighted with w is the flux work. */
  lemma FluxWeakForm(m: Mesh, ex: ExpFun, x: seq<real>, w: nat -> real)
    requires IsExp(ex) && Solvable(m, x)
    ensures Sum(WeightedFlux(m, ex, x, w), m.size) == Sum(EdgeWorks(m, ex, x, w), |m.elements|)
  {
    hide FluxElement, EdgeWorkOf;
    var f := FluxElement(m, ex, x);
    forall e: nat | e < |m.elements| ensures PlacesBelow(f(e), m.size) && DotOf(f, w)(e) == EdgeWorks(m, ex, x, w)(e) {
      FluxElementBelow(m, ex, x, e);
      FluxElementTested(m, ex, x, w, e);
    }
    FlatBelow(f, |m.elements|, m.size);
    EntriesDetermineForm(Flat(f, |m.elements|), w, m.size);
    DotFlat(f, |m.elements|, w);
    SumEqual(DotOf(f, w), EdgeWorks(m, ex, x, w), |m.elements|);
    forall g: nat | g < m.size ensures WeightedFlux(m, ex, x, w)(g) == Weighted(Flat(f, |m.elements|), w)(g) {
      assert FluxResidual(m, ex, x, g) == Entry(Flat(f, |m.elements|), g);
    }
    SumEqual(WeightedFlux(m, ex, x, w), Weighted(Flat(f, |m.elements|), w), m.size);
  }
}
