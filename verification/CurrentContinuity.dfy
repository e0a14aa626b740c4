/** Kirchhoff's law for the discrete steady state: the current summed over the carriers is
    divergence-free between the contacts. */
module CurrentContinuity {
  import opened Calculus
  import opened Exponential
  import opened EdgeFlux
  import opened Forms
  import opened BoxMesh
  import opened BoxSystem
  import opened BoxBalance

  type NodeFunction = nat -> real

  /** pv is the electric potential everywhere; every carrier has one unknown per node, and the
      unknowns of one local node belong to the same mesh node. */
  ghost predicate Nodal(m: Mesh, pv: nat)
    requires Valid(m)
  {
    forall e :: 0 <= e < |m.elements| ==> NodalElement(m, m.elements[e], pv)
  }

  ghost predicate NodalElement(m: Mesh, el: Element, pv: nat)
    requires WellFormed(el)
  {
    && (forall k: nat :: k < |el.dofs| ==> (el.vars[k] == pv <==> k == el.u))
    && (forall k: nat, n: nat :: k < |el.dofs| && n < el.nNodes ==> m.node(Dof(el, k, n)) == m.node(Dof(el, el.u, n)))
  }

  function NodeOf(m: Mesh, el: Element, n: nat): nat
    requires WellFormed(el) && n < el.nNodes
  {
    m.node(Dof(el, el.u, n))
  }

  /** A function on mesh nodes as a test function for all carriers. */
  function NodeTest(m: Mesh, pv: nat, c: NodeFunction): nat -> real {
    (d: nat) => if m.owner(d) != pv then c(m.node(d)) else 0.0
  }

  /** Charge gained per carrier block at a node. */
  function ChargeRate(p: Params, el: Element, x: seq<real>, n: nat): nat -> real
    requires Fits(el, x) && n < el.nNodes
  {
    (k: nat) => if k < |el.dofs| && k != el.u then Signed(el.positive[k], Local(p, el, x, n).rate(k)) else 0.0
  }

  /** Charge leaving through a boundary point, by carrier block; imposed blocks do not count. */
  function ChargeOut(p: Params, el: Element, x: seq<real>, s: Side, i: nat): nat -> real
    requires p.Positive() && Fits(el, x) && WellFormedSide(el, s) && s.Modelled? && i < |s.nodes|
  {
    (k: nat) => if k < |el.dofs| && k != el.u && !BoundaryRows(p, el, x, s, i)(k).dirichlet then
        -(SideScale(p, el, s, i, k) * BoundaryValue(p, el, x, s, i, k))
      else 0.0
  }

  /** Recombination creates no net charge, and neither does surface recombination away from
      the contacts. */
  ghost predicate ChargeConserving(m: Mesh, x: seq<real>, contact: nat -> bool)
    requires Solvable(m, x)
  {
    && (forall e: nat, n: nat :: e < |m.elements| && n < m.elements[e].nNodes ==>
          Sum(ChargeRate(m.p, m.elements[e], x, n), |m.elements[e].dofs|) == 0.0)
    && (forall e: nat, j: nat, i: nat ::
          (e < |m.elements| && j < |m.elements[e].sides| && i < |m.elements[e].sides[j].nodes|) ==>
          NeutralPoint(m, x, contact, e, j, i))
  }

  ghost predicate NeutralPoint(m: Mesh, x: seq<real>, contact: nat -> bool, e: nat, j: nat, i: nat)
    requires Solvable(m, x) && e < |m.elements| && j < |m.elements[e].sides| && i < |m.elements[e].sides[j].nodes|
  {
    var el := m.elements[e];
    var s := el.sides[j];
    s.Modelled? && !contact(NodeOf(m, el, s.nodes[i])) ==> Sum(ChargeOut(m.p, el, x, s, i), |el.dofs|) == 0.0
  }

  /** Away from the contacts nothing is imposed and all carrier rows vanish. */
  ghost predicate SteadyOutside(m: Mesh, ex: ExpFun, x: seq<real>, pv: nat, contact: nat -> bool)
    requires IsExp(ex) && Solvable(m, x)
  {
    forall g: nat :: g < m.size && m.owner(g) != pv && !contact(m.node(g)) ==>
      !Touches(Imposed(m, x), g) && Residual(m, ex, x, g) == 0.0
  }

  ghost predicate VanishesOn(contact: nat -> bool, c: NodeFunction) {
    forall nu: nat :: contact(nu) ==> c(nu) == 0.0
  }

  // ---------------------------------------------------------------------------------------

  lemma NodeTestAt(m: Mesh, pv: nat, c: NodeFunction, e: nat, k: nat, n: nat)
    requires Valid(m) && Nodal(m, pv) && e < |m.elements| && k < |m.elements[e].dofs| && n < m.elements[e].nNodes
    ensures var el := m.elements[e];
      Test(el, NodeTest(m, pv, c))(At(el, k, n)) == if k == el.u then 0.0 else c(NodeOf(m, el, n))
  {
    var el := m.elements[e];
    assert WellFormed(el) && Numbered(m, el) && NodalElement(m, el, pv);
    assert m.owner(el.dofs[k][Id(el, k, n)]) == el.vars[k];
    assert m.node(Dof(el, k, n)) == NodeOf(m, el, n);
  }

  lemma SignedScale(positive: bool, v: real, r: real, s: real)
    requires s > 0.0
    ensures Signed(positive, v * r / s) == v / s * Signed(positive, r)
  {}

  /** Charge conservation makes the node part vanish for a test function shared by all carriers. */
  lemma NodePartBalanced(m: Mesh, x: seq<real>, pv: nat, c: NodeFunction, e: nat, n: nat)
    requires Solvable(m, x) && Nodal(m, pv) && e < |m.elements| && n < m.elements[e].nNodes
    requires Sum(ChargeRate(m.p, m.elements[e], x, n), |m.elements[e].dofs|) == 0.0
    ensures DotOf(NodeAdds(m.p, m.elements[e], x), Test(m.elements[e], NodeTest(m, pv, c)))(n) == 0.0
  {
    hide NodeTest, Test, Local, Sum, Dot, Flat, At, NodeValue, ChargeRate, Covers, Numbered, Nodal;
    var el := m.elements[e];
    var t := Test(el, NodeTest(m, pv, c));
    var f := NodeBlock(m.p, el, x, n);
    DotFlat(f, |el.dofs|, t);
    var factor := c(NodeOf(m, el, n)) * (el.volumes[n] / m.p.r0);
    forall k: nat | k < |el.dofs| ensures DotOf(f, t)(k) == factor * ChargeRate(m.p, el, x, n)(k) {
      NodeBlockBalanced(m, x, pv, c, e, n, k);
    }
    SumScale(ChargeRate(m.p, el, x, n), factor, DotOf(f, t), |el.dofs|);
  }

  lemma NodeBlockBalanced(m: Mesh, x: seq<real>, pv: nat, c: NodeFunction, e: nat, n: nat, k: nat)
    requires Solvable(m, x) && Nodal(m, pv) && e < |m.elements| && n < m.elements[e].nNodes && k < |m.elements[e].dofs|
    ensures var el := m.elements[e];
      DotOf(NodeBlock(m.p, el, x, n), Test(el, NodeTest(m, pv, c)))(k)
      == c(NodeOf(m, el, n)) * (el.volumes[n] / m.p.r0) * ChargeRate(m.p, el, x, n)(k)
  {
    hide NodeTest, Test, Local, At, Dot;
    var el := m.elements[e];
    NodeTestAt(m, pv, c, e, k, n);
    DotSingle(Add(At(el, k, n), NodeValue(m.p, el, x, n, k)), Test(el, NodeTest(m, pv, c)));
    if k != el.u {
      var r := Local(m.p, el, x, n).rate(k);
      SignedScale(el.positive[k], el.volumes[n], r, m.p.r0);
      Regroup(c(NodeOf(m, el, n)), el.volumes[n] / m.p.r0, Signed(el.positive[k], r));
    }
  }

  lemma Regroup(a: real, b: real, c: real)
    ensures a * (b * c) == (a * b) * c
  {}

  lemma SidePartBalanced(m: Mesh, x: seq<real>, pv: nat, c: NodeFunction, contact: nat -> bool, e: nat, j: nat, i: nat)
    requires Solvable(m, x) && Nodal(m, pv) && VanishesOn(contact, c)
    requires e < |m.elements| && j < |m.elements[e].sides| && i < |m.elements[e].sides[j].nodes|
    requires NeutralPoint(m, x, contact, e, j, i)
    ensures var el := m.elements[e];
      DotOf(SidePoint(m.p, el, x, el.sides[j]), Test(el, NodeTest(m, pv, c)))(i) == 0.0
  {
    hide NodeTest, Test, BoundaryRows, Sum, Dot, Flat, At;
    var el := m.elements[e];
    var s := el.sides[j];
    var t := Test(el, NodeTest(m, pv, c));
    if s.Outer? {
      NodeTestAt(m, pv, c, e, el.u, s.nodes[i]);
      DotSingleZero(OuterAdd(m.p, el, s, i), t);
    } else {
      var f := SideBlock(m.p, el, x, s, i);
      DotFlat(f, |el.dofs|, t);
      var factor := c(NodeOf(m, el, s.nodes[i]));
      forall k: nat | k < |el.dofs| ensures DotOf(f, t)(k) == factor * ChargeOut(m.p, el, x, s, i)(k) {
        SideBlockBalanced(m, x, pv, c, e, j, i, k);
      }
      SumScale(ChargeOut(m.p, el, x, s, i), factor, DotOf(f, t), |el.dofs|);
    }
  }

  lemma SideBlockBalanced(m: Mesh, x: seq<real>, pv: nat, c: NodeFunction, e: nat, j: nat, i: nat, k: nat)
    requires Solvable(m, x) && Nodal(m, pv)
    requires e < |m.elements| && j < |m.elements[e].sides| && i < |m.elements[e].sides[j].nodes|
    requires k < |m.elements[e].dofs|
    requires m.elements[e].sides[j].Modelled?
    ensures var el := m.elements[e]; var s := el.sides[j];
      DotOf(SideBlock(m.p, el, x, s, i), Test(el, NodeTest(m, pv, c)))(k)
      == c(NodeOf(m, el, s.nodes[i])) * ChargeOut(m.p, el, x, s, i)(k)
  {
    hide NodeTest, Test, BoundaryRows, SideScale, BoundaryValue, At, Dot;
    var el := m.elements[e];
    var s := el.sides[j];
    var t := Test(el, NodeTest(m, pv, c));
    NodeTestAt(m, pv, c, e, k, s.nodes[i]);
    if !BoundaryRows(m.p, el, x, s, i)(k).dirichlet {
      DotSingle(SideAdd(m.p, el, x, s, i, k), t);
    } else {
      DotEmpty(t);
    }
  }

  /** For a balanced system the element form of a node function is its flux work. */
  lemma BalancedElement(m: Mesh, ex: ExpFun, x: seq<real>, pv: nat, c: NodeFunction, contact: nat -> bool, e: nat)
    requires IsExp(ex) && Solvable(m, x) && Nodal(m, pv) && VanishesOn(contact, c) && ChargeConserving(m, x, contact)
    requires e < |m.elements|
    ensures ElementForm(m, ex, x, NodeTest(m, pv, c))(e) == EdgeWorks(m, ex, x, NodeTest(m, pv, c))(e)
  {
    hide NodeAdds, ElementAdds, EdgeTerm, Test, NodeTest, ChargeRate, Numbered, Increasing, Sum, Dot, Nodal;
    var el := m.elements[e];
    var t := Test(el, NodeTest(m, pv, c));
    ElementSplit(m.p, ex, el, x, t);
    NodesBalanced(m, x, pv, c, contact, e);
    SidesBalanced(m, x, pv, c, contact, e);
  }

  lemma NodesBalanced(m: Mesh, x: seq<real>, pv: nat, c: NodeFunction, contact: nat -> bool, e: nat)
    requires Solvable(m, x) && Nodal(m, pv) && ChargeConserving(m, x, contact) && e < |m.elements|
    ensures var el := m.elements[e]; Sum(DotOf(NodeAdds(m.p, el, x), Test(el, NodeTest(m, pv, c))), el.nNodes) == 0.0
  {
    hide NodeAdds, Test, NodeTest, ChargeRate, NeutralPoint, Nodal, Numbered, WellFormed, Covers;
    var el := m.elements[e];
    var f := DotOf(NodeAdds(m.p, el, x), Test(el, NodeTest(m, pv, c)));
    forall n: nat | n < el.nNodes ensures f(n) == 0.0 {
      NodePartBalanced(m, x, pv, c, e, n);
    }
    SumZero(f, el.nNodes);
  }

  lemma SidesBalanced(m: Mesh, x: seq<real>, pv: nat, c: NodeFunction, contact: nat -> bool, e: nat)
    requires Solvable(m, x) && Nodal(m, pv) && VanishesOn(contact, c) && ChargeConserving(m, x, contact)
    requires e < |m.elements|
    ensures var el := m.elements[e]; Sum(DotOf(SideAdds(m.p, el, x), Test(el, NodeTest(m, pv, c))), |el.sides|) == 0.0
  {
    hide SidePoint, Test, NodeTest, ChargeRate, NeutralPoint, Nodal, Numbered, VanishesOn, Dot, Sum, Flat;
    var el := m.elements[e];
    var t := Test(el, NodeTest(m, pv, c));
    var f := DotOf(SideAdds(m.p, el, x), t);
    forall j: nat | j < |el.sides| ensures f(j) == 0.0 {
      OneSideBalanced(m, x, pv, c, contact, e, j);
    }
    SumZero(f, |el.sides|);
  }

  lemma OneSideBalanced(m: Mesh, x: seq<real>, pv: nat, c: NodeFunction, contact: nat -> bool, e: nat, j: nat)
    requires Solvable(m, x) && Nodal(m, pv) && VanishesOn(contact, c) && ChargeConserving(m, x, contact)
    requires e < |m.elements| && j < |m.elements[e].sides|
    ensures var el := m.elements[e]; var s := el.sides[j];
      Dot(Flat(SidePoint(m.p, el, x, s), |s.nodes|), Test(el, NodeTest(m, pv, c))) == 0.0
  {
    hide SidePoint, Test, NodeTest, ChargeRate, NeutralPoint, Nodal, Numbered, VanishesOn, Dot, Sum, Flat;
    var el := m.elements[e];
    var s := el.sides[j];
    var t := Test(el, NodeTest(m, pv, c));
    DotFlat(SidePoint(m.p, el, x, s), |s.nodes|, t);
    forall i: nat | i < |s.nodes| ensures DotOf(SidePoint(m.p, el, x, s), t)(i) == 0.0 {
      SidePartBalanced(m, x, pv, c, contact, e, j, i);
    }
    SumZero(DotOf(SidePoint(m.p, el, x, s), t), |s.nodes|);
  }

  // ---------------------------------------------------------------------------------------
  // Flows

  /** Current flowing out of the node function c: for the indicator of a set of nodes, the
      current through the boundary of that set. */
  function Flow(m: Mesh, ex: ExpFun, x: seq<real>, pv: nat, c: NodeFunction): real
    requires IsExp(ex) && Solvable(m, x)
  {
    Sum(WeightedFlux(m, ex, x, NodeTest(m, pv, c)), m.size)
  }

  /** Between the contacts the current is divergence-free. */
  lemma DivergenceFree(m: Mesh, ex: ExpFun, x: seq<real>, pv: nat, c: NodeFunction, contact: nat -> bool)
    requires IsExp(ex) && Solvable(m, x) && Nodal(m, pv) && VanishesOn(contact, c)
    requires ChargeConserving(m, x, contact) && SteadyOutside(m, ex, x, pv, contact)
    ensures Flow(m, ex, x, pv, c) == 0.0
  {
    var w := NodeTest(m, pv, c);
    var all := Contributions(m, ex, x);
    SteadyWeighted(m, ex, x, pv, c, contact);
    hide Contributions, ElementForm, EdgeWorks, WeightedFlux, NodeTest, Valid, Nodal, VanishesOn, ChargeConserving,
      SteadyOutside;
    WeakForm(m, ex, x, w);
    FluxWeakForm(m, ex, x, w);
    forall e: nat | e < |m.elements| ensures ElementForm(m, ex, x, w)(e) == EdgeWorks(m, ex, x, w)(e) {
      BalancedElement(m, ex, x, pv, c, contact, e);
    }
    SumEqual(ElementForm(m, ex, x, w), EdgeWorks(m, ex, x, w), |m.elements|);
  }

  lemma SteadyWeighted(m: Mesh, ex: ExpFun, x: seq<real>, pv: nat, c: NodeFunction, contact: nat -> bool)
    requires IsExp(ex) && Solvable(m, x) && VanishesOn(contact, c) && SteadyOutside(m, ex, x, pv, contact)
    ensures Sum(Weighted(Contributions(m, ex, x), NodeTest(m, pv, c)), m.size) == 0.0
  {
    hide Contributions, Valid, Imposed, Touches;
    var all := Contributions(m, ex, x);
    var f := Weighted(all, NodeTest(m, pv, c));
    forall g: nat | g < m.size ensures f(g) == 0.0 {
      if m.owner(g) != pv && !contact(m.node(g)) {
        assert Residual(m, ex, x, g) == Entry(all, g);
      } else {
        assert NodeTest(m, pv, c)(g) == 0.0;
      }
    }
    SumZero(f, m.size);
  }

  // ---------------------------------------------------------------------------------------
  // Cuts and terminals

  lemma FlowAdds(m: Mesh, ex: ExpFun, x: seq<real>, pv: nat, a: NodeFunction, b: NodeFunction, c: NodeFunction)
    requires IsExp(ex) && Solvable(m, x)
    requires forall nu: nat :: c(nu) == a(nu) + b(nu)
    ensures Flow(m, ex, x, pv, c) == Flow(m, ex, x, pv, a) + Flow(m, ex, x, pv, b)
  {
    hide WeightedFlux, NodeTest, Valid, Sum;
    var fa, fb, fc := WeightedFlux(m, ex, x, NodeTest(m, pv, a)), WeightedFlux(m, ex, x, NodeTest(m, pv, b)),
                      WeightedFlux(m, ex, x, NodeTest(m, pv, c));
    forall g: nat | g < m.size ensures fc(g) == fa(g) + fb(g) { FluxTermAdds(m, ex, x, pv, a, b, c, g); }
    SumPlus(fa, fb, fc, m.size);
  }

  lemma FluxTermAdds(m: Mesh, ex: ExpFun, x: seq<real>, pv: nat, a: NodeFunction, b: NodeFunction, c: NodeFunction,
                     g: nat)
    requires IsExp(ex) && Solvable(m, x) && forall nu: nat :: c(nu) == a(nu) + b(nu)
    ensures WeightedFlux(m, ex, x, NodeTest(m, pv, c))(g)
      == WeightedFlux(m, ex, x, NodeTest(m, pv, a))(g) + WeightedFlux(m, ex, x, NodeTest(m, pv, b))(g)
  {
    hide FluxResidual, Valid;
    WeightsAdd(NodeTest(m, pv, a)(g), NodeTest(m, pv, b)(g), FluxResidual(m, ex, x, g));
  }

  lemma WeightsAdd(a: real, b: real, f: real)
    ensures (a + b) * f == a * f + b * f
  {}

  /** Current of all carriers across one edge, from n1 to n2. */
  function EdgeCurrent(p: Params, ex: ExpFun, el: Element, x: seq<real>, e: Edge): real
    requires IsExp(ex) && p.Positive() && Fits(el, x) && WellFormedEdge(el, e)
  {
    Sum(CarrierCurrent(p, ex, el, x, e), |el.dofs|)
  }

  function CarrierCurrent(p: Params, ex: ExpFun, el: Element, x: seq<real>, e: Edge): nat -> real
    requires IsExp(ex) && p.Positive() && Fits(el, x) && WellFormedEdge(el, e)
  {
    (k: nat) => if k < |el.dofs| && k != el.u then CarrierFlux(p, ex, el, x, e, k) else 0.0
  }

  function Drop(m: Mesh, el: Element, e: Edge, c: NodeFunction): real
    requires WellFormed(el) && WellFormedEdge(el, e)
  {
    c(NodeOf(m, el, e.n1)) - c(NodeOf(m, el, e.n2))
  }

  function EdgeFlow(m: Mesh, ex: ExpFun, x: seq<real>, c: NodeFunction, e: nat): nat -> real
    requires IsExp(ex) && Solvable(m, x) && e < |m.elements|
  {
    (i: nat) => if i < |m.elements[e].edges| then EdgeFlowAt(m, ex, x, c, m.elements[e], m.elements[e].edges[i])
      else 0.0
  }

  function EdgeFlowAt(m: Mesh, ex: ExpFun, x: seq<real>, c: NodeFunction, el: Element, d: Edge): real
    requires IsExp(ex) && m.p.Positive() && Fits(el, x) && WellFormedEdge(el, d)
  {
    Drop(m, el, d, c) * EdgeCurrent(m.p, ex, el, x, d)
  }

  function ElementFlow(m: Mesh, ex: ExpFun, x: seq<real>, c: NodeFunction): nat -> real
    requires IsExp(ex) && Solvable(m, x)
  {
    (e: nat) => if e < |m.elements| then Sum(EdgeFlow(m, ex, x, c, e), |m.elements[e].edges|) else 0.0
  }

  lemma OneEdgeFlow(m: Mesh, ex: ExpFun, x: seq<real>, pv: nat, c: NodeFunction, e: nat, i: nat)
    requires IsExp(ex) && Solvable(m, x) && Nodal(m, pv) && e < |m.elements| && i < |m.elements[e].edges|
    ensures EdgeTerm(m.p, ex, m.elements[e], x, Test(m.elements[e], NodeTest(m, pv, c)))(i)
      == EdgeFlow(m, ex, x, c, e)(i)
  {
    hide NodeTest, Test, At, PoissonFlux, CarrierFlux, Sum;
    var el := m.elements[e];
    var d, t := el.edges[i], Test(el, NodeTest(m, pv, c));
    var f, g := CarrierTerm(m.p, ex, el, x, d, t), CarrierCurrent(m.p, ex, el, x, d);
    forall k: nat | k < |el.dofs| ensures Jump(el, d, k, t) == if k == el.u then 0.0 else Drop(m, el, d, c) {
      NodeTestAt(m, pv, c, e, k, d.n1);
      NodeTestAt(m, pv, c, e, k, d.n2);
    }
    hide Jump, Drop;
    forall k: nat | k < |el.dofs| ensures f(k) == Drop(m, el, d, c) * g(k) {}
    SumScale(g, Drop(m, el, d, c), f, |el.dofs|);
    assert Jump(el, d, el.u, t) * PoissonFlux(m.p, el, x, d) == 0.0;
  }

  /** The flow of a node function, edge by edge. */
  lemma FlowThroughEdges(m: Mesh, ex: ExpFun, x: seq<real>, pv: nat, c: NodeFunction)
    requires IsExp(ex) && Solvable(m, x) && Nodal(m, pv)
    ensures Flow(m, ex, x, pv, c) == Sum(ElementFlow(m, ex, x, c), |m.elements|)
  {
    hide EdgeTerm, EdgeFlow, NodeTest, Nodal, Valid;
    var w := NodeTest(m, pv, c);
    FluxWeakForm(m, ex, x, w);
    forall e: nat | e < |m.elements| ensures EdgeWorks(m, ex, x, w)(e) == ElementFlow(m, ex, x, c)(e) {
      ElementFlowSame(m, ex, x, pv, c, e);
    }
    SumEqual(EdgeWorks(m, ex, x, w), ElementFlow(m, ex, x, c), |m.elements|);
  }

  lemma ElementFlowSame(m: Mesh, ex: ExpFun, x: seq<real>, pv: nat, c: NodeFunction, e: nat)
    requires IsExp(ex) && Solvable(m, x) && Nodal(m, pv) && e < |m.elements|
    ensures EdgeWorkOf(m, ex, x, NodeTest(m, pv, c), e) == Sum(EdgeFlow(m, ex, x, c, e), |m.elements[e].edges|)
  {
    hide EdgeTerm, EdgeFlow, NodeTest, Nodal, Test, Sum;
    var el := m.elements[e];
    var f := EdgeTerm(m.p, ex, el, x, Test(el, NodeTest(m, pv, c)));
    forall i: nat | i < |el.edges| ensures f(i) == EdgeFlow(m, ex, x, c, e)(i) {
      OneEdgeFlow(m, ex, x, pv, c, e, i);
    }
    SumEqual(f, EdgeFlow(m, ex, x, c, e), |el.edges|);
  }

  function Indicator(s: nat -> bool): NodeFunction {
    (nu: nat) => if s(nu) then 1.0 else 0.0
  }

  /** Current leaving the set of nodes s: edge currents from inside to outside count positive,
      from outside to inside negative, all other edges not at all. */
  function CutCurrent(m: Mesh, ex: ExpFun, x: seq<real>, s: nat -> bool): real
    requires IsExp(ex) && Solvable(m, x)
  {
    Sum(ElementFlow(m, ex, x, Indicator(s)), |m.elements|)
  }

  /** Current a group of nodes feeds into the device: their assembled flux rows, summed over
      nodes and carriers. */
  function TerminalCurrent(m: Mesh, ex: ExpFun, x: seq<real>, pv: nat, group: nat -> bool): real
    requires IsExp(ex) && Solvable(m, x)
  {
    Flow(m, ex, x, pv, Indicator(group))
  }

  function Difference(a: NodeFunction, b: NodeFunction): NodeFunction {
    (nu: nat) => a(nu) - b(nu)
  }

  lemma SameOnContacts(contact: nat -> bool, cut: nat -> bool, group: nat -> bool)
    requires forall nu: nat :: contact(nu) ==> (cut(nu) <==> group(nu))
    ensures VanishesOn(contact, Difference(Indicator(cut), Indicator(group)))
  {}

  /** Kirchhoff's law: every cut carries exactly the current of the contacts it encloses, so
      all cuts separating the same contacts carry the same current. */
  lemma EveryCutCarriesTheTerminalCurrent(m: Mesh, ex: ExpFun, x: seq<real>, pv: nat, contact: nat -> bool,
                                          cut: nat -> bool, group: nat -> bool)
    requires IsExp(ex) && Solvable(m, x) && Nodal(m, pv)
    requires ChargeConserving(m, x, contact) && SteadyOutside(m, ex, x, pv, contact)
    requires forall nu: nat :: contact(nu) ==> (cut(nu) <==> group(nu))
    ensures CutCurrent(m, ex, x, cut) == TerminalCurrent(m, ex, x, pv, group)
  {
    hide Flow, ElementFlow, Nodal, Valid, ChargeConserving, SteadyOutside;
    var difference := Difference(Indicator(cut), Indicator(group));
    SameOnContacts(contact, cut, group);
    DivergenceFree(m, ex, x, pv, difference, contact);
    FlowAdds(m, ex, x, pv, Indicator(group), difference, Indicator(cut));
    FlowThroughEdges(m, ex, x, pv, Indicator(cut));
  }

  /** Contact number i of a numbering of the contacts. */
  function Contact(contact: nat -> bool, number: nat -> nat, i: nat): nat -> bool {
    (nu: nat) => contact(nu) && number(nu) == i
  }

  function FirstContacts(contact: nat -> bool, number: nat -> nat, n: nat): nat -> bool {
    (nu: nat) => contact(nu) && number(nu) < n
  }

  function ContactCurrent(m: Mesh, ex: ExpFun, x: seq<real>, pv: nat, contact: nat -> bool,
                          number: nat -> nat): nat -> real
    requires IsExp(ex) && Solvable(m, x)
  {
    (i: nat) => TerminalCurrent(m, ex, x, pv, Contact(contact, number, i))
  }

  lemma {:induction false} FirstContactsCurrent(m: Mesh, ex: ExpFun, x: seq<real>, pv: nat, contact: nat -> bool,
                                                number: nat -> nat, n: nat)
    requires IsExp(ex) && Solvable(m, x) && Nodal(m, pv)
    ensures Sum(ContactCurrent(m, ex, x, pv, contact, number), n)
         == TerminalCurrent(m, ex, x, pv, FirstContacts(contact, number, n))
  {
    hide Flow, Nodal, Valid;
    var first := Indicator(FirstContacts(contact, number, n));
    if n == 0 {
      FlowAdds(m, ex, x, pv, first, first, first);
    } else {
      FirstContactsCurrent(m, ex, x, pv, contact, number, n - 1);
      FlowAdds(m, ex, x, pv, Indicator(FirstContacts(contact, number, n - 1)),
        Indicator(Contact(contact, number, n - 1)), first);
    }
  }

  /** Shifting all nodes by the same amount moves no current. */
  lemma ConstantFlow(m: Mesh, ex: ExpFun, x: seq<real>, pv: nat, c: NodeFunction)
    requires IsExp(ex) && Solvable(m, x) && Nodal(m, pv) && forall a: nat, b: nat :: c(a) == c(b)
    ensures Flow(m, ex, x, pv, c) == 0.0
  {
    hide Nodal, EdgeFlow, Flow, Valid;
    FlowThroughEdges(m, ex, x, pv, c);
    forall e: nat | e < |m.elements| ensures ElementFlow(m, ex, x, c)(e) == 0.0 {
      ConstantElementFlow(m, ex, x, c, e);
    }
    SumZero(ElementFlow(m, ex, x, c), |m.elements|);
  }

  lemma ConstantElementFlow(m: Mesh, ex: ExpFun, x: seq<real>, c: NodeFunction, e: nat)
    requires IsExp(ex) && Solvable(m, x) && e < |m.elements| && forall a: nat, b: nat :: c(a) == c(b)
    ensures Sum(EdgeFlow(m, ex, x, c, e), |m.elements[e].edges|) == 0.0
  {
    hide EdgeCurrent, NodeOf;
    var f := EdgeFlow(m, ex, x, c, e);
    forall i: nat | i < |m.elements[e].edges| ensures f(i) == 0.0 {
      var el := m.elements[e];
      var d := el.edges[i];
      assert c(NodeOf(m, el, d.n1)) == c(NodeOf(m, el, d.n2));
      assert EdgeFlowAt(m, ex, x, c, el, d) == 0.0;
    }
    SumZero(f, |m.elements[e].edges|);
  }

  /** The terminal currents of all contacts add up to zero. */
  lemma TerminalCurrentsBalance(m: Mesh, ex: ExpFun, x: seq<real>, pv: nat, contact: nat -> bool, number: nat -> nat,
                                n: nat)
    requires IsExp(ex) && Solvable(m, x) && Nodal(m, pv)
    requires ChargeConserving(m, x, contact) && SteadyOutside(m, ex, x, pv, contact)
    requires forall nu: nat :: contact(nu) ==> number(nu) < n
    ensures Sum(ContactCurrent(m, ex, x, pv, contact, number), n) == 0.0
  {
    hide Flow, Nodal, Valid, ChargeConserving, SteadyOutside;
    FirstContactsCurrent(m, ex, x, pv, contact, number, n);
    var all := Indicator(FirstContacts(contact, number, n));
    var one: NodeFunction := (nu: nat) => 1.0;
    var inside: NodeFunction := (nu: nat) => 1.0 - all(nu);
    assert VanishesOn(contact, inside);
    DivergenceFree(m, ex, x, pv, inside, contact);
    FlowAdds(m, ex, x, pv, all, inside, one);
    ConstantFlow(m, ex, x, pv, one);
  }
}
