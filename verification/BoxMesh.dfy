/** The data one box-integration assembly works on, and what every part of an element adds to
    the residual and to the Jacobian. Quantities the physical models supply (densities,
    conductivities, rates, boundary coefficients) are functions of the local potentials. */
module BoxMesh {
  import opened Calculus
  import opened Exponential
  import opened EdgeFlux
  import opened Forms

  datatype Vec = Vec(x: real, y: real, z: real)

  function Inner(a: Vec, b: Vec): real {
    a.x * b.x + a.y * b.y + a.z * b.z
  }

  datatype Axis = X | Y | Z

  function Component(v: Vec, a: Axis): real {
    match a
    case X => v.x
    case Y => v.y
    case Z => v.z
  }

  /** Scaling constants and the discretisation of the carrier flux. */
  datatype Params = Params(phi0: real, x0: real, c0: real, mu0: real, r0: real, l2: real, p0: real, scheme: Scheme)
  {
    predicate Positive() {
      phi0 > 0.0 && x0 > 0.0 && c0 > 0.0 && mu0 > 0.0 && r0 > 0.0 && p0 > 0.0
    }
  }

  /** Local properties at a node, by block: charge density and its derivatives, net rates and
      their derivatives, conductivities, their derivatives with respect to the Fermi level
      and to the gradient of the electric potential. */
  datatype PointData = PointData(rho: real, drho: nat -> real, rate: nat -> real, drate: (nat, nat) -> real,
                                 sigma: nat -> real, dsigma: nat -> real, dgrad: nat -> Vec)

  /** An edge with the dual face crossing it; dir is the unit vector from n1 to n2. */
  datatype Edge = Edge(n1: nat, n2: nat, len: real, area: real, dir: Vec)

  /** Boundary row g - a*phi of one block with its derivatives with respect to all blocks. */
  datatype BoundaryRow = BoundaryRow(dirichlet: bool, a: real, g: real, jac: nat -> real)

  /** A side of an element on a boundary with a model, or a plain outer boundary where only the
      normal polarization enters. Entry i belongs to the local node nodes[i]. */
  datatype Side =
    | Modelled(nodes: seq<nat>, areas: seq<real>, rows: (nat, seq<real>) -> (nat -> BoundaryRow))
    | Outer(nodes: seq<nat>, areas: seq<real>, normalPolarization: seq<real>)

  /** An element. Block k of its unknowns is variable vars[k]; block u is the electric
      potential; dofs[k] lists the global degrees of freedom of block k, one per node or a
      single one for a carrier with constant potential. */
  datatype Element = Element(nNodes: nat, vars: seq<nat>, u: nat, positive: seq<bool>, dofs: seq<seq<nat>>,
                             volumes: seq<real>, edges: seq<Edge>, sides: seq<Side>,
                             permTrace: seq<real>, polarization: seq<Vec>,
                             model: (nat, seq<real>) -> PointData)

  /** A place in the element system: entry id of block block. */
  datatype Slot = Slot(block: nat, id: nat)

  datatype Place = Place(row: Slot, col: Slot)

  ghost predicate WellFormedEdge(el: Element, e: Edge) {
    e.n1 < el.nNodes && e.n2 < el.nNodes && e.len > 0.0 && e.area >= 0.0
  }

  ghost predicate WellFormedSide(el: Element, s: Side) {
    && |s.areas| == |s.nodes|
    && (forall i :: 0 <= i < |s.nodes| ==> s.nodes[i] < el.nNodes)
    && (s.Outer? ==> |s.normalPolarization| == |s.nodes|)
  }

  ghost predicate WellFormed(el: Element) {
    && el.u < |el.vars| == |el.dofs| == |el.positive|
    && (forall k :: 0 <= k < |el.dofs| ==> |el.dofs[k]| == 1 || |el.dofs[k]| == el.nNodes)
    && |el.dofs[el.u]| == el.nNodes > 0
    && |el.volumes| == |el.permTrace| == |el.polarization| == el.nNodes
    && (forall i :: 0 <= i < |el.edges| ==> WellFormedEdge(el, el.edges[i]))
    && (forall i :: 0 <= i < |el.sides| ==> WellFormedSide(el, el.sides[i]))
  }

  /** Local index of the unknown of block k at a node: constant blocks have a single one. */
  function Id(el: Element, k: nat, n: nat): (id: nat)
    requires WellFormed(el) && k < |el.dofs| && n < el.nNodes
    ensures id < |el.dofs[k]|
  {
    if |el.dofs[k]| == 1 then 0 else n
  }

  function At(el: Element, k: nat, n: nat): Slot
    requires WellFormed(el) && k < |el.dofs| && n < el.nNodes
  {
    Slot(k, Id(el, k, n))
  }

  function Dof(el: Element, k: nat, n: nat): nat
    requires WellFormed(el) && k < |el.dofs| && n < el.nNodes
  {
    el.dofs[k][Id(el, k, n)]
  }

  /** All degrees of freedom of the element exist in the global vector. */
  ghost predicate Covers(el: Element, size: nat) {
    forall k, i :: 0 <= k < |el.dofs| && 0 <= i < |el.dofs[k]| ==> el.dofs[k][i] < size
  }

  ghost predicate Fits(el: Element, x: seq<real>) {
    WellFormed(el) && Covers(el, |x|)
  }

  /** Scaled potential of block k at a node. */
  function Potential(el: Element, x: seq<real>, k: nat, n: nat): real
    requires Fits(el, x) && k < |el.dofs| && n < el.nNodes
  {
    x[Dof(el, k, n)]
  }

  /** Potentials at a node in volts, by block. */
  function Potentials(p: Params, el: Element, x: seq<real>, n: nat): seq<real>
    requires Fits(el, x) && n < el.nNodes
  {
    seq(|el.dofs|, k requires 0 <= k < |el.dofs| => p.phi0 * Potential(el, x, k, n))
  }

  function Local(p: Params, el: Element, x: seq<real>, n: nat): PointData
    requires Fits(el, x) && n < el.nNodes
  {
    el.model(n, Potentials(p, el, x, n))
  }

  // ---------------------------------------------------------------------------------------
  // Node part: charge and recombination

  function NodeValue(p: Params, el: Element, x: seq<real>, n: nat, k: nat): real
    requires p.Positive() && Fits(el, x) && n < el.nNodes && k < |el.dofs|
  {
    var d := Local(p, el, x, n);
    if k == el.u then -(el.volumes[n] * d.rho / p.c0)
    else Signed(el.positive[k], el.volumes[n] * d.rate(k) / p.r0)
  }

  function NodeBlock(p: Params, el: Element, x: seq<real>, n: nat): nat -> seq<Add<Slot>>
    requires p.Positive() && Fits(el, x) && n < el.nNodes
  {
    (k: nat) => if k < |el.dofs| then [Add(At(el, k, n), NodeValue(p, el, x, n, k))] else []
  }

  function NodeAdds(p: Params, el: Element, x: seq<real>): nat -> seq<Add<Slot>>
    requires p.Positive() && Fits(el, x)
  {
    (n: nat) => if n < el.nNodes then Flat(NodeBlock(p, el, x, n), |el.dofs|) else []
  }

  // ---------------------------------------------------------------------------------------
  // Edge part: displacement and carrier fluxes

  function PoissonCoefficient(p: Params, el: Element, e: Edge): real
    requires p.Positive() && WellFormed(el) && WellFormedEdge(el, e)
  {
    p.l2 * ((el.permTrace[e.n1] + el.permTrace[e.n2]) / 6.0) * e.area / e.len
  }

  function PoissonFlux(p: Params, el: Element, x: seq<real>, e: Edge): real
    requires p.Positive() && Fits(el, x) && WellFormedEdge(el, e)
  {
    var pol := (Inner(el.polarization[e.n1], e.dir) + Inner(el.polarization[e.n2], e.dir)) * 0.5;
    e.area * pol / p.p0
    + PoissonCoefficient(p, el, e) * (Potential(el, x, el.u, e.n1) - Potential(el, x, el.u, e.n2))
  }

  function EdgeState(p: Params, el: Element, x: seq<real>, e: Edge, k: nat): (s: Edge1)
    requires p.Positive() && Fits(el, x) && WellFormedEdge(el, e) && k < |el.dofs|
    ensures s.Geometric()
  {
    assert p.mu0 * p.c0 > 0.0;
    Edge1(e.area, e.len, el.positive[k], p.mu0 * p.c0,
          Local(p, el, x, e.n1).sigma(k), Local(p, el, x, e.n2).sigma(k),
          Potential(el, x, el.u, e.n1), Potential(el, x, el.u, e.n2),
          Potential(el, x, k, e.n1), Potential(el, x, k, e.n2))
  }

  function CarrierFlux(p: Params, ex: ExpFun, el: Element, x: seq<real>, e: Edge, k: nat): real
    requires IsExp(ex) && p.Positive() && Fits(el, x) && WellFormedEdge(el, e) && k < |el.dofs|
  {
    Flux(ex, p.scheme, EdgeState(p, el, x, e, k))
  }

  /** A flux leaves the box of n1 and enters the box of n2. */
  function Across(el: Element, e: Edge, k: nat, f: real): seq<Add<Slot>>
    requires WellFormed(el) && WellFormedEdge(el, e) && k < |el.dofs|
  {
    [Add(At(el, k, e.n1), f), Add(At(el, k, e.n2), -f)]
  }

  function CarrierBlock(p: Params, ex: ExpFun, el: Element, x: seq<real>, e: Edge): nat -> seq<Add<Slot>>
    requires IsExp(ex) && p.Positive() && Fits(el, x) && WellFormedEdge(el, e)
  {
    (k: nat) => if k < |el.dofs| && k != el.u then Across(el, e, k, CarrierFlux(p, ex, el, x, e, k)) else []
  }

  /** One edge: displacement flux of the potential, then the flux of every carrier. */
  function OneEdge(p: Params, ex: ExpFun, el: Element, x: seq<real>, e: Edge): seq<Add<Slot>>
    requires IsExp(ex) && p.Positive() && Fits(el, x) && WellFormedEdge(el, e)
  {
    Across(el, e, el.u, PoissonFlux(p, el, x, e)) + Flat(CarrierBlock(p, ex, el, x, e), |el.dofs|)
  }

  function EdgeAdds(p: Params, ex: ExpFun, el: Element, x: seq<real>): nat -> seq<Add<Slot>>
    requires IsExp(ex) && p.Positive() && Fits(el, x)
  {
    (i: nat) => if i < |el.edges| then OneEdge(p, ex, el, x, el.edges[i]) else []
  }

  // ---------------------------------------------------------------------------------------
  // Side part: Neumann and mixed boundary conditions, normal polarization

  function BoundaryRows(p: Params, el: Element, x: seq<real>, s: Side, i: nat): nat -> BoundaryRow
    requires Fits(el, x) && WellFormedSide(el, s) && s.Modelled? && i < |s.nodes|
  {
    s.rows(i, Potentials(p, el, x, s.nodes[i]))
  }

  /** g - a*phi of block k. */
  function BoundaryValue(p: Params, el: Element, x: seq<real>, s: Side, i: nat, k: nat): real
    requires Fits(el, x) && WellFormedSide(el, s) && s.Modelled? && i < |s.nodes| && k < |el.dofs|
  {
    var row := BoundaryRows(p, el, x, s, i)(k);
    row.g - row.a * (p.phi0 * Potential(el, x, k, s.nodes[i]))
  }

  /** Weight of a boundary value in the balance of block k: outflow counts as recombination. */
  function SideScale(p: Params, el: Element, s: Side, i: nat, k: nat): real
    requires p.Positive() && WellFormed(el) && WellFormedSide(el, s) && i < |s.nodes| && k < |el.dofs|
  {
    if k == el.u then s.areas[i] / p.x0 / p.c0 else Signed(!el.positive[k], s.areas[i] / p.x0 / p.r0)
  }

  function SideAdd(p: Params, el: Element, x: seq<real>, s: Side, i: nat, k: nat): Add<Slot>
    requires p.Positive() && Fits(el, x) && WellFormedSide(el, s) && i < |s.nodes| && s.Modelled? && k < |el.dofs|
  {
    Add(At(el, k, s.nodes[i]), -(SideScale(p, el, s, i, k) * BoundaryValue(p, el, x, s, i, k)))
  }

  function SideBlock(p: Params, el: Element, x: seq<real>, s: Side, i: nat): nat -> seq<Add<Slot>>
    requires p.Positive() && Fits(el, x) && WellFormedSide(el, s) && i < |s.nodes| && s.Modelled?
  {
    (k: nat) => if k < |el.dofs| && !BoundaryRows(p, el, x, s, i)(k).dirichlet then
        [SideAdd(p, el, x, s, i, k)]
      else []
  }

  function OuterAdd(p: Params, el: Element, s: Side, i: nat): Add<Slot>
    requires WellFormed(el) && WellFormedSide(el, s) && i < |s.nodes| && s.Outer?
  {
    Add(At(el, el.u, s.nodes[i]), -(s.areas[i] * s.normalPolarization[i]))
  }

  function SidePoint(p: Params, el: Element, x: seq<real>, s: Side): nat -> seq<Add<Slot>>
    requires p.Positive() && Fits(el, x) && WellFormedSide(el, s)
  {
    (i: nat) =>
      if i >= |s.nodes| then []
      else if s.Modelled? then Flat(SideBlock(p, el, x, s, i), |el.dofs|)
      else [OuterAdd(p, el, s, i)]
  }

  function SideAdds(p: Params, el: Element, x: seq<real>): nat -> seq<Add<Slot>>
    requires p.Positive() && Fits(el, x)
  {
    (j: nat) => if j < |el.sides| then Flat(SidePoint(p, el, x, el.sides[j]), |el.sides[j].nodes|) else []
  }

  /** Everything the element adds to the residual. */
  function ElementAdds(p: Params, ex: ExpFun, el: Element, x: seq<real>): seq<Add<Slot>>
    requires IsExp(ex) && p.Positive() && Fits(el, x)
  {
    Flat(NodeAdds(p, el, x), el.nNodes)
    + Flat(EdgeAdds(p, ex, el, x), |el.edges|)
    + Flat(SideAdds(p, el, x), |el.sides|)
  }
}
