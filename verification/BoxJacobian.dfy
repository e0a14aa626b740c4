/** What every part of an element adds to the Jacobian, in full coupling. */
module BoxJacobian {
  import opened Calculus
  import opened Exponential
  import opened EdgeFlux
  import opened Forms
  import opened BoxMesh
  import opened BoxSystem

  type JacAdds = seq<Add<Place>>

  // ---------------------------------------------------------------------------------------
  // Node part

  /** Derivative of the charge density with respect to the scaled potential of block k. */
  function ChargeSlope(p: Params, el: Element, x: seq<real>, n: nat): nat -> real
    requires Fits(el, x) && n < el.nNodes
  {
    (k: nat) => if k < |el.dofs| && k != el.u then Local(p, el, x, n).drho(k) * p.phi0 else 0.0
  }

  function RateEntry(p: Params, el: Element, x: seq<real>, n: nat, k: nat, j: nat): Add<Place>
    requires p.Positive() && Fits(el, x) && n < el.nNodes && k < |el.dofs| && j < |el.dofs|
  {
    Add(Place(At(el, k, n), At(el, j, n)),
        Signed(el.positive[k], el.volumes[n] * (Local(p, el, x, n).drate(k, j) * p.phi0) / p.r0))
  }

  function RateRow(p: Params, el: Element, x: seq<real>, n: nat, k: nat): nat -> JacAdds
    requires p.Positive() && Fits(el, x) && n < el.nNodes && k < |el.dofs|
  {
    (j: nat) => if j < |el.dofs| then [RateEntry(p, el, x, n, k, j)] else []
  }

  function ChargeEntry(p: Params, el: Element, x: seq<real>, n: nat, k: nat): Add<Place>
    requires p.Positive() && Fits(el, x) && n < el.nNodes && k < |el.dofs|
  {
    Add(Place(At(el, el.u, n), At(el, k, n)), -(el.volumes[n] * ChargeSlope(p, el, x, n)(k) / p.c0))
  }

  /** Own column of the Poisson row: the charge follows the difference of the potentials. */
  function ChargeDiagonal(p: Params, el: Element, x: seq<real>, n: nat): Add<Place>
    requires p.Positive() && Fits(el, x) && n < el.nNodes
  {
    Add(Place(At(el, el.u, n), At(el, el.u, n)),
        el.volumes[n] * Sum(ChargeSlope(p, el, x, n), |el.dofs|) / p.c0)
  }

  function NodeJacBlock(p: Params, el: Element, x: seq<real>, n: nat): nat -> JacAdds
    requires p.Positive() && Fits(el, x) && n < el.nNodes
  {
    (k: nat) => if k < |el.dofs| && k != el.u then
        [ChargeEntry(p, el, x, n, k)] + Flat(RateRow(p, el, x, n, k), |el.dofs|)
      else []
  }

  function NodeJac(p: Params, el: Element, x: seq<real>): nat -> JacAdds
    requires p.Positive() && Fits(el, x)
  {
    (n: nat) => if n < el.nNodes then
        Flat(NodeJacBlock(p, el, x, n), |el.dofs|) + [ChargeDiagonal(p, el, x, n)]
      else []
  }

  // ---------------------------------------------------------------------------------------
  // Edge part

  function SlopesAt(p: Params, el: Element, x: seq<real>, e: Edge, k: nat): Slopes1
    requires p.Positive() && Fits(el, x) && WellFormedEdge(el, e) && k < |el.dofs|
  {
    var d1, d2 := Local(p, el, x, e.n1), Local(p, el, x, e.n2);
    Slopes1(p.phi0, d1.dsigma(k), d2.dsigma(k),
            Inner(d1.dgrad(k), e.dir) * p.phi0 / p.x0, Inner(d2.dgrad(k), e.dir) * p.phi0 / p.x0)
  }

  function FluxRow(p: Params, ex: ExpFun, el: Element, x: seq<real>, e: Edge, k: nat): Row1
    requires IsExp(ex) && p.Positive() && Fits(el, x) && WellFormedEdge(el, e) && k < |el.dofs|
  {
    Row(ex, p.scheme, EdgeState(p, el, x, e, k), SlopesAt(p, el, x, e, k))
  }

  /** Entries of one block pair: value a in column n1, value b in column n2, row n1 positive and
      row n2 negative. */
  function AcrossJac(el: Element, e: Edge, k: nat, j: nat, a: real, b: real): JacAdds
    requires WellFormed(el) && WellFormedEdge(el, e) && k < |el.dofs| && j < |el.dofs|
  {
    [Add(Place(At(el, k, e.n1), At(el, j, e.n1)), a), Add(Place(At(el, k, e.n1), At(el, j, e.n2)), b),
     Add(Place(At(el, k, e.n2), At(el, j, e.n1)), -a), Add(Place(At(el, k, e.n2), At(el, j, e.n2)), -b)]
  }

  function CarrierJac(p: Params, ex: ExpFun, el: Element, x: seq<real>, e: Edge): nat -> JacAdds
    requires IsExp(ex) && p.Positive() && Fits(el, x) && WellFormedEdge(el, e)
  {
    (k: nat) => if k < |el.dofs| && k != el.u then
        var r := FluxRow(p, ex, el, x, e, k);
        AcrossJac(el, e, k, k, r.q1, r.q2) + AcrossJac(el, e, k, el.u, r.p1, r.p2)
      else []
  }

  function OneEdgeJac(p: Params, ex: ExpFun, el: Element, x: seq<real>, e: Edge): JacAdds
    requires IsExp(ex) && p.Positive() && Fits(el, x) && WellFormedEdge(el, e)
  {
    var c := PoissonCoefficient(p, el, e);
    AcrossJac(el, e, el.u, el.u, c, -c) + Flat(CarrierJac(p, ex, el, x, e), |el.dofs|)
  }

  function EdgeJac(p: Params, ex: ExpFun, el: Element, x: seq<real>): nat -> JacAdds
    requires IsExp(ex) && p.Positive() && Fits(el, x)
  {
    (i: nat) => if i < |el.edges| then OneEdgeJac(p, ex, el, x, el.edges[i]) else []
  }

  // ---------------------------------------------------------------------------------------
  // Side part

  function SideEntry(p: Params, el: Element, x: seq<real>, s: Side, i: nat, k: nat, j: nat): Add<Place>
    requires p.Positive() && Fits(el, x) && WellFormedSide(el, s) && s.Modelled? && i < |s.nodes|
    requires k < |el.dofs| && j < |el.dofs|
  {
    Add(Place(At(el, k, s.nodes[i]), At(el, j, s.nodes[i])),
        -(SideScale(p, el, s, i, k) * (p.phi0 * BoundaryRows(p, el, x, s, i)(k).jac(j))))
  }

  function SideRow(p: Params, el: Element, x: seq<real>, s: Side, i: nat, k: nat): nat -> JacAdds
    requires p.Positive() && Fits(el, x) && WellFormedSide(el, s) && s.Modelled? && i < |s.nodes| && k < |el.dofs|
  {
    (j: nat) => if j < |el.dofs| then [SideEntry(p, el, x, s, i, k, j)] else []
  }

  function SideJacBlock(p: Params, el: Element, x: seq<real>, s: Side, i: nat): nat -> JacAdds
    requires p.Positive() && Fits(el, x) && WellFormedSide(el, s) && s.Modelled? && i < |s.nodes|
  {
    (k: nat) => if k < |el.dofs| && !BoundaryRows(p, el, x, s, i)(k).dirichlet then
        Flat(SideRow(p, el, x, s, i, k), |el.dofs|)
      else []
  }

  function SideJacPoint(p: Params, el: Element, x: seq<real>, s: Side): nat -> JacAdds
    requires p.Positive() && Fits(el, x) && WellFormedSide(el, s)
  {
    (i: nat) => if i < |s.nodes| && s.Modelled? then Flat(SideJacBlock(p, el, x, s, i), |el.dofs|) else []
  }

  function SideJac(p: Params, el: Element, x: seq<real>): nat -> JacAdds
    requires p.Positive() && Fits(el, x)
  {
    (j: nat) => if j < |el.sides| then Flat(SideJacPoint(p, el, x, el.sides[j]), |el.sides[j].nodes|) else []
  }

  /** Everything the element adds to the Jacobian. */
  function ElementJac(p: Params, ex: ExpFun, el: Element, x: seq<real>): JacAdds
    requires IsExp(ex) && p.Positive() && Fits(el, x)
  {
    Flat(NodeJac(p, el, x), el.nNodes)
    + Flat(EdgeJac(p, ex, el, x), |el.edges|)
    + Flat(SideJac(p, el, x), |el.sides|)
  }

  // ---------------------------------------------------------------------------------------
  // Global entries

  /** Tests rows with w and columns with v. */
  function Both(w: Slot -> real, v: Slot -> real): Place -> real {
    (c: Place) => w(c.row) * v(c.col)
  }

  /** Contribution of element e to entry (g, j): row slot numbered g, column slot numbered j. */
  function EntryOf(m: Mesh, ex: ExpFun, x: seq<real>, g: nat, j: nat): nat -> real
    requires IsExp(ex) && Solvable(m, x)
  {
    (e: nat) => if e < |m.elements| then
        var el := m.elements[e];
        Dot(ElementJac(m.p, ex, el, x), Both(Test(el, Delta(g)), Test(el, Delta(j))))
      else 0.0
  }

  // ---------------------------------------------------------------------------------------
  // Imposed rows

  /** An imposed row depends on the unknowns of its own node only. */
  datatype Pair = Pair(row: nat, col: nat)

  type PairAdds = seq<Add<Pair>>

  function ImposedEntry(p: Params, el: Element, x: seq<real>, s: Side, i: nat, k: nat, j: nat): Add<Pair>
    requires p.Positive() && Fits(el, x) && WellFormedSide(el, s) && s.Modelled? && i < |s.nodes|
    requires k < |el.dofs| && j < |el.dofs|
  {
    Add(Pair(Dof(el, k, s.nodes[i]), Dof(el, j, s.nodes[i])), -BoundaryRows(p, el, x, s, i)(k).jac(j))
  }

  function ImposedRow(p: Params, el: Element, x: seq<real>, s: Side, i: nat, k: nat): nat -> PairAdds
    requires p.Positive() && Fits(el, x) && WellFormedSide(el, s) && s.Modelled? && i < |s.nodes| && k < |el.dofs|
  {
    (j: nat) => if j < |el.dofs| then [ImposedEntry(p, el, x, s, i, k, j)] else []
  }

  function ImposedBlock(p: Params, el: Element, x: seq<real>, s: Side, i: nat): nat -> PairAdds
    requires p.Positive() && Fits(el, x) && WellFormedSide(el, s) && s.Modelled? && i < |s.nodes|
  {
    (k: nat) => if k < |el.dofs| && BoundaryRows(p, el, x, s, i)(k).dirichlet then
        Flat(ImposedRow(p, el, x, s, i, k), |el.dofs|)
      else []
  }

  function ImposedPoint(p: Params, el: Element, x: seq<real>, s: Side): nat -> PairAdds
    requires p.Positive() && Fits(el, x) && WellFormedSide(el, s)
  {
    (i: nat) => if i < |s.nodes| && s.Modelled? then Flat(ImposedBlock(p, el, x, s, i), |el.dofs|) else []
  }

  function ImposedSides(p: Params, el: Element, x: seq<real>): nat -> PairAdds
    requires p.Positive() && Fits(el, x)
  {
    (j: nat) => if j < |el.sides| then Flat(ImposedPoint(p, el, x, el.sides[j]), |el.sides[j].nodes|) else []
  }

  function ImposedElement(m: Mesh, x: seq<real>): nat -> PairAdds
    requires Solvable(m, x)
  {
    (e: nat) => if e < |m.elements| then Flat(ImposedSides(m.p, m.elements[e], x), |m.elements[e].sides|) else []
  }

  function ImposedJac(m: Mesh, x: seq<real>): PairAdds
    requires Solvable(m, x)
  {
    Flat(ImposedElement(m, x), |m.elements|)
  }

  function BothPair(w: nat -> real, z: nat -> real): Pair -> real {
    (c: Pair) => w(c.row) * z(c.col)
  }

  /** Entry (g, j) of the Jacobian: imposed rows replace the assembled ones. */
  ghost function Jacobian(m: Mesh, ex: ExpFun, x: seq<real>, g: nat, j: nat): real
    requires IsExp(ex) && Solvable(m, x)
  {
    if Touches(Imposed(m, x), g) then Dot(ImposedJac(m, x), BothPair(Delta(g), Delta(j)))
    else Sum(EntryOf(m, ex, x, g, j), |m.elements|)
  }
}
