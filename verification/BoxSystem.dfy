/** The assembled nonlinear system: residual rows over all elements, with the rows of Dirichlet
    unknowns replaced at the end. */
module BoxSystem {
  import opened Calculus
  import opened Exponential
  import opened EdgeFlux
  import opened Forms
  import opened BoxMesh

  /** owner tells the variable and node the mesh node of every degree of freedom. */
  datatype Mesh = Mesh(p: Params, elements: seq<Element>, size: nat, owner: nat -> nat, node: nat -> nat)

  ghost predicate Numbered(m: Mesh, el: Element) {
    && |el.dofs| == |el.vars|
    && forall k, i :: 0 <= k < |el.dofs| && 0 <= i < |el.dofs[k]| ==> m.owner(el.dofs[k][i]) == el.vars[k]
  }

  ghost predicate Valid(m: Mesh) {
    && m.p.Positive()
    && forall e :: 0 <= e < |m.elements| ==>
         var el := m.elements[e];
         WellFormed(el) && Covers(el, m.size) && Numbered(m, el) && Increasing(el.vars)
  }

  /** Variables come in ascending order, each once. */
  ghost predicate Increasing(vars: seq<nat>) {
    forall i, j :: 0 <= i < j < |vars| ==> vars[i] < vars[j]
  }

  ghost predicate Solvable(m: Mesh, x: seq<real>) {
    Valid(m) && |x| == m.size
  }

  ghost predicate InRange(el: Element, s: Slot) {
    s.block < |el.dofs| && s.id < |el.dofs[s.block]|
  }

  ghost predicate AllInRange(el: Element, adds: seq<Add<Slot>>) {
    forall i :: 0 <= i < |adds| ==> InRange(el, adds[i].at)
  }

  /** Global degree of freedom of a slot. */
  function DofOf(el: Element, s: Slot): nat
    requires InRange(el, s)
  {
    el.dofs[s.block][s.id]
  }

  /** A test function on the global unknowns, seen from an element. */
  function Test(el: Element, w: nat -> real): Slot -> real {
    (s: Slot) => if s.block < |el.dofs| && s.id < |el.dofs[s.block]| then w(el.dofs[s.block][s.id]) else 0.0
  }

  function Relabel(el: Element, adds: seq<Add<Slot>>): (r: seq<Add<nat>>)
    requires AllInRange(el, adds)
    ensures |r| == |adds|
    ensures forall i :: 0 <= i < |r| ==> r[i] == Add(DofOf(el, adds[i].at), adds[i].val)
  {
    seq(|adds|, i requires 0 <= i < |adds| => Add(DofOf(el, adds[i].at), adds[i].val))
  }

  lemma {:induction false} DotRelabel(el: Element, adds: seq<Add<Slot>>, w: nat -> real)
    requires AllInRange(el, adds)
    ensures Dot(Relabel(el, adds), w) == Dot(adds, Test(el, w))
  {
    if adds != [] {
      var n := |adds| - 1;
      DotRelabel(el, adds[..n], w);
      assert Relabel(el, adds)[..n] == Relabel(el, adds[..n]);
    }
  }

  lemma {:induction false} FlatInRange(el: Element, f: nat -> seq<Add<Slot>>, n: nat)
    requires forall i: nat :: i < n ==> AllInRange(el, f(i))
    ensures AllInRange(el, Flat(f, n))
  {
    if n > 0 { FlatInRange(el, f, n - 1); }
  }

  lemma ElementInRange(p: Params, ex: ExpFun, el: Element, x: seq<real>)
    requires IsExp(ex) && p.Positive() && Fits(el, x)
    ensures AllInRange(el, ElementAdds(p, ex, el, x))
  {
    hide NodeAdds, EdgeAdds, SideAdds, Flat;
    NodesInRange(p, el, x);
    EdgesInRange(p, ex, el, x);
    SidesInRange(p, el, x);
  }

  lemma NodesInRange(p: Params, el: Element, x: seq<real>)
    requires p.Positive() && Fits(el, x)
    ensures AllInRange(el, Flat(NodeAdds(p, el, x), el.nNodes))
  {
    forall n: nat | n < el.nNodes ensures AllInRange(el, NodeAdds(p, el, x)(n)) {
      hide NodeValue, Flat;
      FlatInRange(el, NodeBlock(p, el, x, n), |el.dofs|);
    }
    FlatInRange(el, NodeAdds(p, el, x), el.nNodes);
  }

  lemma OneEdgeInRange(p: Params, ex: ExpFun, el: Element, x: seq<real>, e: Edge)
    requires IsExp(ex) && p.Positive() && Fits(el, x) && WellFormedEdge(el, e)
    ensures AllInRange(el, OneEdge(p, ex, el, x, e))
  {
    hide CarrierFlux, PoissonFlux, Flat;
    FlatInRange(el, CarrierBlock(p, ex, el, x, e), |el.dofs|);
  }

  lemma EdgesInRange(p: Params, ex: ExpFun, el: Element, x: seq<real>)
    requires IsExp(ex) && p.Positive() && Fits(el, x)
    ensures AllInRange(el, Flat(EdgeAdds(p, ex, el, x), |el.edges|))
  {
    forall i: nat | i < |el.edges| ensures AllInRange(el, EdgeAdds(p, ex, el, x)(i)) {
      OneEdgeInRange(p, ex, el, x, el.edges[i]);
    }
    hide OneEdge, AllInRange, Flat;
    FlatInRange(el, EdgeAdds(p, ex, el, x), |el.edges|);
  }

  lemma SidesInRange(p: Params, el: Element, x: seq<real>)
    requires p.Positive() && Fits(el, x)
    ensures AllInRange(el, Flat(SideAdds(p, el, x), |el.sides|))
  {
    forall j: nat | j < |el.sides| ensures AllInRange(el, SideAdds(p, el, x)(j)) {
      var s := el.sides[j];
      forall i: nat | i < |s.nodes| ensures AllInRange(el, SidePoint(p, el, x, s)(i)) {
        if s.Modelled? { SideBlockInRange(p, el, x, s, i); }
      }
      FlatInRange(el, SidePoint(p, el, x, s), |s.nodes|);
    }
    FlatInRange(el, SideAdds(p, el, x), |el.sides|);
  }

  lemma SideBlockInRange(p: Params, el: Element, x: seq<real>, s: Side, i: nat)
    requires p.Positive() && Fits(el, x) && WellFormedSide(el, s) && i < |s.nodes| && s.Modelled?
    ensures AllInRange(el, Flat(SideBlock(p, el, x, s, i), |el.dofs|))
  {
    forall k: nat | k < |el.dofs| ensures AllInRange(el, SideBlock(p, el, x, s, i)(k)) {
      var adds := SideBlock(p, el, x, s, i)(k);
      if !BoundaryRows(p, el, x, s, i)(k).dirichlet {
        assert |adds| == 1 && adds[0].at == At(el, k, s.nodes[i]);
      }
    }
    FlatInRange(el, SideBlock(p, el, x, s, i), |el.dofs|);
  }

  /** Contributions of one element to the global residual. */
  function ElementGlobal(m: Mesh, ex: ExpFun, x: seq<real>): nat -> seq<Add<nat>>
    requires IsExp(ex) && Solvable(m, x)
  {
    (e: nat) => if e < |m.elements| then
        ElementInRange(m.p, ex, m.elements[e], x);
        Relabel(m.elements[e], ElementAdds(m.p, ex, m.elements[e], x))
      else []
  }

  function Contributions(m: Mesh, ex: ExpFun, x: seq<real>): seq<Add<nat>>
    requires IsExp(ex) && Solvable(m, x)
  {
    Flat(ElementGlobal(m, ex, x), |m.elements|)
  }

  // ---------------------------------------------------------------------------------------
  // Dirichlet rows

  function DirichletAdd(p: Params, el: Element, x: seq<real>, s: Side, i: nat, k: nat): Add<nat>
    requires p.Positive() && Fits(el, x) && WellFormedSide(el, s) && s.Modelled? && i < |s.nodes| && k < |el.dofs|
  {
    Add(Dof(el, k, s.nodes[i]), -(BoundaryValue(p, el, x, s, i, k) / p.phi0))
  }

  function DirichletBlock(p: Params, el: Element, x: seq<real>, s: Side, i: nat): nat -> seq<Add<nat>>
    requires p.Positive() && Fits(el, x) && WellFormedSide(el, s) && s.Modelled? && i < |s.nodes|
  {
    (k: nat) => if k < |el.dofs| && BoundaryRows(p, el, x, s, i)(k).dirichlet then
        [DirichletAdd(p, el, x, s, i, k)]
      else []
  }

  function DirichletPoint(p: Params, el: Element, x: seq<real>, s: Side): nat -> seq<Add<nat>>
    requires p.Positive() && Fits(el, x) && WellFormedSide(el, s)
  {
    (i: nat) => if i < |s.nodes| && s.Modelled? then Flat(DirichletBlock(p, el, x, s, i), |el.dofs|) else []
  }

  function DirichletSides(p: Params, el: Element, x: seq<real>): nat -> seq<Add<nat>>
    requires p.Positive() && Fits(el, x)
  {
    (j: nat) => if j < |el.sides| then Flat(DirichletPoint(p, el, x, el.sides[j]), |el.sides[j].nodes|) else []
  }

  function DirichletElement(m: Mesh, x: seq<real>): nat -> seq<Add<nat>>
    requires Solvable(m, x)
  {
    (e: nat) => if e < |m.elements| then Flat(DirichletSides(m.p, m.elements[e], x), |m.elements[e].sides|) else []
  }

  /** All values written for Dirichlet rows, in the order the assembly meets them. */
  function Imposed(m: Mesh, x: seq<real>): seq<Add<nat>>
    requires Solvable(m, x)
  {
    Flat(DirichletElement(m, x), |m.elements|)
  }

  ghost predicate Touches(adds: seq<Add<nat>>, g: nat) {
    exists i :: 0 <= i < |adds| && adds[i].at == g
  }

  /** Row g of the residual. */
  ghost function Residual(m: Mesh, ex: ExpFun, x: seq<real>, g: nat): real
    requires IsExp(ex) && Solvable(m, x)
  {
    if Touches(Imposed(m, x), g) then Entry(Imposed(m, x), g) else Entry(Contributions(m, ex, x), g)
  }

  // ---------------------------------------------------------------------------------------
  // The weak form

  lemma ContributionsBelow(m: Mesh, ex: ExpFun, x: seq<real>)
    requires IsExp(ex) && Solvable(m, x)
    ensures PlacesBelow(Contributions(m, ex, x), m.size)
  {
    forall e: nat | e < |m.elements| ensures PlacesBelow(ElementGlobal(m, ex, x)(e), m.size) {
      RelabelBelow(m, ex, x, e);
    }
    hide ElementGlobal;
    FlatBelow(ElementGlobal(m, ex, x), |m.elements|, m.size);
  }

  lemma RelabelBelow(m: Mesh, ex: ExpFun, x: seq<real>, e: nat)
    requires IsExp(ex) && Solvable(m, x) && e < |m.elements|
    ensures PlacesBelow(ElementGlobal(m, ex, x)(e), m.size)
  {
    var el := m.elements[e];
    ElementInRange(m.p, ex, el, x);
    var adds := ElementAdds(m.p, ex, el, x);
    hide ElementAdds;
    forall i | 0 <= i < |adds| ensures DofOf(el, adds[i].at) < m.size {
      assert InRange(el, adds[i].at);
    }
  }

  /** The element form with test function w. */
  function ElementForm(m: Mesh, ex: ExpFun, x: seq<real>, w: nat -> real): nat -> real
    requires IsExp(ex) && Solvable(m, x)
  {
    (e: nat) => if e < |m.elements| then
        Dot(ElementAdds(m.p, ex, m.elements[e], x), Test(m.elements[e], w))
      else 0.0
  }

  lemma ContributionsTested(m: Mesh, ex: ExpFun, x: seq<real>, w: nat -> real)
    requires IsExp(ex) && Solvable(m, x)
    ensures Dot(Contributions(m, ex, x), w) == Sum(ElementForm(m, ex, x, w), |m.elements|)
  {
    hide ElementAdds;
    DotFlat(ElementGlobal(m, ex, x), |m.elements|, w);
    forall e: nat | e < |m.elements|
      ensures DotOf(ElementGlobal(m, ex, x), w)(e) == ElementForm(m, ex, x, w)(e)
    {
      ElementInRange(m.p, ex, m.elements[e], x);
      DotRelabel(m.elements[e], ElementAdds(m.p, ex, m.elements[e], x), w);
    }
    SumEqual(DotOf(ElementGlobal(m, ex, x), w), ElementForm(m, ex, x, w), |m.elements|);
  }

  /** Summation by parts over the whole mesh: the residual entries weighted with w equal the
      sum of the element forms. */
  lemma WeakForm(m: Mesh, ex: ExpFun, x: seq<real>, w: nat -> real)
    requires IsExp(ex) && Solvable(m, x)
    ensures Sum(Weighted(Contributions(m, ex, x), w), m.size) == Sum(ElementForm(m, ex, x, w), |m.elements|)
  {
    hide Contributions, ElementForm;
    ContributionsBelow(m, ex, x);
    EntriesDetermineForm(Contributions(m, ex, x), w, m.size);
    ContributionsTested(m, ex, x, w);
  }
}
