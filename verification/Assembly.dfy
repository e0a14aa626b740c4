/** The assembly of the residual: nodes, edges and sides of every element are visited in turn,
    an element vector accumulates their contributions and is added to the global vector, and the
    rows of imposed unknowns are replaced at the end. */
module Assembly {
  import opened Calculus
  import opened Exponential
  import opened EdgeFlux
  import opened Forms
  import opened BoxMesh
  import opened BoxSystem
  import opened Layout
  import opened ElementVector
  import opened Scatter

  // ---------------------------------------------------------------------------------------
  // Nodes

  /** Local properties at all nodes, kept for the edges. */
  ghost predicate NodeData(p: Params, el: Element, x: seq<real>, data: seq<PointData>)
    requires Fits(el, x)
  {
    |data| == el.nNodes && forall n: nat :: n < el.nNodes ==> data[n] == Local(p, el, x, n)
  }

  lemma NodeBlockAt(p: Params, el: Element, x: seq<real>, n: nat, k: nat, d: PointData, value: real)
    requires p.Positive() && Fits(el, x) && n < el.nNodes && k < |el.dofs| && d == Local(p, el, x, n)
    requires value == (if k == el.u then -(el.volumes[n] * d.rho / p.c0)
                       else Signed(el.positive[k], el.volumes[n] * d.rate(k) / p.r0))
    ensures NodeBlock(p, el, x, n)(k) == [Add(At(el, k, n), value)]
  {
    assert value == NodeValue(p, el, x, n, k);
    hide NodeValue;
  }

  method AssembleNode(p: Params, el: Element, x: seq<real>, first: seq<nat>, fe: array<real>, n: nat, d: PointData,
                      ghost adds: seq<Add<Slot>>)
    requires p.Positive() && Fits(el, x) && n < el.nNodes && d == Local(p, el, x, n)
    requires Located(el, first) && Holds(el, fe[..], adds)
    modifies fe
    ensures Holds(el, fe[..], adds + NodeAdds(p, el, x)(n))
  {
    hide Holds, Located, Local, Flat;
    ghost var list := NodeBlock(p, el, x, n);
    FlatNone(adds, list);
    for k := 0 to |el.dofs|
      invariant Holds(el, fe[..], adds + Flat(list, k))
    {
      FlatNext(adds, list, k);
      var id := if |el.dofs[k]| == 1 then 0 else n;
      var value: real;
      if k == el.u {
        value := -(el.volumes[n] * d.rho / p.c0);
      } else {
        var netRecomb := el.volumes[n] * d.rate(k) / p.r0;
        value := Signed(el.positive[k], netRecomb);
      }
      NodeBlockAt(p, el, x, n, k, d, value);
      AddTo(el, first, fe, k, id, value, adds + Flat(list, k));
    }
  }

  method AssembleNodes(p: Params, el: Element, x: seq<real>, first: seq<nat>, fe: array<real>,
                       ghost adds: seq<Add<Slot>>)
    returns (data: seq<PointData>)
    requires p.Positive() && Fits(el, x) && Located(el, first) && Holds(el, fe[..], adds)
    modifies fe
    ensures NodeData(p, el, x, data)
    ensures Holds(el, fe[..], adds + Flat(NodeAdds(p, el, x), el.nNodes))
  {
    hide Holds, Located, Local, Flat, NodeAdds;
    data := [];
    FlatNone(adds, NodeAdds(p, el, x));
    for n := 0 to el.nNodes
      invariant |data| == n && forall i: nat :: i < n ==> data[i] == Local(p, el, x, i)
      invariant Holds(el, fe[..], adds + Flat(NodeAdds(p, el, x), n))
    {
      FlatNext(adds, NodeAdds(p, el, x), n);
      var d := Local(p, el, x, n);
      data := data + [d];
      AssembleNode(p, el, x, first, fe, n, d, adds + Flat(NodeAdds(p, el, x), n));
    }
  }

  // ---------------------------------------------------------------------------------------
  // Edges

  /** Bernoulli factors of both ends and the two exponential factors, linear for small drops. */
  method ExponentialFactors(ex: ExpFun, s: Edge1) returns (g: Parts)
    requires IsExp(ex)
    ensures g == PartsSG(ex, s)
  {
    hide Bernoulli, IsExp, Exp;
    var arg := Signed(!s.positive, s.p1 - s.p2);
    var ber := Bernoulli(ex, arg);
    var bp, dbp := ber.val, Signed(!s.positive, ber.der);
    var bn, dbn := arg + bp, Signed(!s.positive, 1.0) + dbp;
    var arg2 := Signed(!s.positive, s.q1 - s.q2);
    var f1, f2 := -arg2, -arg2;
    var df1, df2 := Signed(!s.positive, -1.0), Signed(!s.positive, -1.0);
    if Abs(arg2) > 0.1 {
      f1 := 1.0 - Exp(ex, arg2);
      df1 := Signed(!s.positive, -Exp(ex, arg2));
      f2 := Exp(ex, -arg2) - 1.0;
      df2 := Signed(!s.positive, -Exp(ex, -arg2));
    }
    g := Parts(Value(bp, dbp), Value(bn, dbn), Value(f1, df1), Value(f2, df2));
  }

  /** Averaged two-sided exponential flux. */
  method ExponentialFlux(ex: ExpFun, s: Edge1) returns (value: real)
    requires IsExp(ex) && s.Geometric()
    ensures value == FluxSG(ex, s)
  {
    hide PartsSG;
    var g := ExponentialFactors(ex, s);
    var coeff := Signed(s.positive, s.area / s.len / s.scale);
    var val1 := coeff * (s.c1 * (g.b1.val * g.l.val));
    var val2 := coeff * (s.c2 * (g.b2.val * g.r.val));
    value := 0.5 * (val1 + val2);
  }

  /** Flux with the mean conductivity. */
  method MeanFlux(s: Edge1) returns (value: real)
    requires s.Geometric()
    ensures value == FluxMean(s)
  {
    var mean := 0.5 * (s.c1 + s.c2) / s.scale;
    var coeff := s.area / s.len;
    value := coeff * mean * (s.q1 - s.q2);
    MeanFluxForm(coeff, s.scale, 0.5 * (s.c1 + s.c2), s.q1 - s.q2);
  }

  lemma MeanFluxForm(k: real, scale: real, c: real, d: real)
    requires scale > 0.0
    ensures k * (c / scale) * d == k / scale * (c * d)
  {
    var r := 1.0 / scale;
    QuotientAsProduct(c, scale);
    QuotientAsProduct(k, scale);
    assert k * (c * r) * d == (k * r) * (c * d);
  }

  lemma QuotientAsProduct(a: real, b: real)
    requires b > 0.0
    ensures a / b == a * (1.0 / b)
  {
    var r := 1.0 / b;
    assert r * b == 1.0;
    assert (a * r) * b == a * (r * b) == a;
  }

  /** A flux is added at one end and taken at the other. */
  method AddAcross(el: Element, first: seq<nat>, fe: array<real>, e: Edge, k: nat, value: real,
                   ghost adds: seq<Add<Slot>>)
    requires WellFormed(el) && WellFormedEdge(el, e) && k < |el.dofs|
    requires Located(el, first) && Holds(el, fe[..], adds)
    modifies fe
    ensures Holds(el, fe[..], adds + Across(el, e, k, value))
  {
    hide Holds, Located;
    var i, j := Id(el, k, e.n1), Id(el, k, e.n2);
    AddTo(el, first, fe, k, i, value, adds);
    AddTo(el, first, fe, k, j, -value, adds + [Add(Slot(k, i), value)]);
    assert adds + Across(el, e, k, value) == (adds + [Add(Slot(k, i), value)]) + [Add(Slot(k, j), -value)];
  }

  method DisplacementFlux(p: Params, el: Element, x: seq<real>, e: Edge) returns (value: real)
    requires p.Positive() && Fits(el, x) && WellFormedEdge(el, e)
    ensures value == PoissonFlux(p, el, x, e)
  {
    var perm := (el.permTrace[e.n1] + el.permTrace[e.n2]) / 6.0;
    var coeff := p.l2 * perm * e.area / e.len;
    var pol := (Inner(el.polarization[e.n1], e.dir) + Inner(el.polarization[e.n2], e.dir)) * 0.5;
    value := e.area * pol / p.p0;
    value := value + coeff * (Potential(el, x, el.u, e.n1) - Potential(el, x, el.u, e.n2));
  }

  lemma CarrierBlockAt(p: Params, ex: ExpFun, el: Element, x: seq<real>, e: Edge, k: nat)
    requires IsExp(ex) && p.Positive() && Fits(el, x) && WellFormedEdge(el, e) && k < |el.dofs|
    ensures CarrierBlock(p, ex, el, x, e)(k)
         == if k == el.u then [] else Across(el, e, k, Flux(ex, p.scheme, EdgeState(p, el, x, e, k)))
  {
    hide Across, Flux, EdgeState;
  }

  method AssembleEdge(p: Params, ex: ExpFun, el: Element, x: seq<real>, first: seq<nat>, fe: array<real>, e: Edge,
                      data: seq<PointData>, ghost adds: seq<Add<Slot>>)
    requires IsExp(ex) && p.Positive() && Fits(el, x) && WellFormedEdge(el, e) && NodeData(p, el, x, data)
    requires Located(el, first) && Holds(el, fe[..], adds)
    modifies fe
    ensures Holds(el, fe[..], adds + OneEdge(p, ex, el, x, e))
  {
    hide Holds, Located, Local, Flat, Across, FluxSG, FluxMean, CarrierBlock;
    var value := DisplacementFlux(p, el, x, e);
    AddAcross(el, first, fe, e, el.u, value, adds);
    ghost var before := adds + Across(el, e, el.u, value);
    ghost var list := CarrierBlock(p, ex, el, x, e);
    FlatNone(before, list);
    for k := 0 to |el.dofs|
      invariant Holds(el, fe[..], before + Flat(list, k))
    {
      FlatNext(before, list, k);
      CarrierBlockAt(p, ex, el, x, e, k);
      if k != el.u {
        assert p.mu0 * p.c0 > 0.0;
        var s := Edge1(e.area, e.len, el.positive[k], p.mu0 * p.c0, data[e.n1].sigma(k), data[e.n2].sigma(k),
                       Potential(el, x, el.u, e.n1), Potential(el, x, el.u, e.n2),
                       Potential(el, x, k, e.n1), Potential(el, x, k, e.n2));
        assert s == EdgeState(p, el, x, e, k);
        var flux: real;
        if p.scheme == BIMSG {
          flux := ExponentialFlux(ex, s);
        } else {
          flux := MeanFlux(s);
        }
        AddAcross(el, first, fe, e, k, flux, before + Flat(list, k));
      } else {
        assert (before + Flat(list, k)) + [] == before + Flat(list, k);
      }
    }
    assert before + Flat(list, |el.dofs|) == adds + (Across(el, e, el.u, value) + Flat(list, |el.dofs|));
  }

  // ---------------------------------------------------------------------------------------
  // Sides

  /** The values recorded for imposed rows so far. */
  ghost predicate Records(d: map<nat, real>, adds: seq<Add<nat>>) {
    forall g: nat :: (g in d <==> Touches(adds, g)) && (g in d ==> d[g] == Entry(adds, g))
  }

  lemma EntryUntouched(adds: seq<Add<nat>>, g: nat)
    requires !Touches(adds, g)
    ensures Entry(adds, g) == 0.0
  {
    if adds != [] {
      var rest, last := adds[..|adds| - 1], adds[|adds| - 1];
      assert adds == rest + [last] && last.at != g;
      assert !Touches(rest, g);
      EntryUntouched(rest, g);
      EntryAppend(rest, last, g);
    }
  }

  lemma RecordsStep(d: map<nat, real>, adds: seq<Add<nat>>, a: Add<nat>)
    requires Records(d, adds)
    ensures Records(d[a.at := (if a.at in d then d[a.at] else 0.0) + a.val], adds + [a])
  {
    hide Entry;
    var d' := d[a.at := (if a.at in d then d[a.at] else 0.0) + a.val];
    forall g: nat
      ensures (g in d' <==> Touches(adds + [a], g)) && (g in d' ==> d'[g] == Entry(adds + [a], g))
    {
      EntryAppend(adds, a, g);
      TouchesAppend(adds, a, g);
      hide Touches;
      if g !in d { EntryUntouched(adds, g); }
    }
  }

  lemma TouchesAppend(adds: seq<Add<nat>>, a: Add<nat>, g: nat)
    ensures Touches(adds + [a], g) <==> Touches(adds, g) || a.at == g
  {
    if Touches(adds, g) {
      var i :| 0 <= i < |adds| && adds[i].at == g;
      assert (adds + [a])[i].at == g;
    }
    assert (adds + [a])[|adds|] == a;
  }

  /** The value of an imposed row is accumulated. */
  method Record(d: map<nat, real>, g: nat, v: real, ghost adds: seq<Add<nat>>) returns (r: map<nat, real>)
    requires Records(d, adds)
    ensures Records(r, adds + [Add(g, v)])
  {
    RecordsStep(d, adds, Add(g, v));
    hide Records;
    if g in d {
      r := d[g := d[g] + v];
    } else {
      r := d[g := 0.0 + v];
    }
  }

  lemma SideBlockAt(p: Params, el: Element, x: seq<real>, s: Side, i: nat, k: nat, row: BoundaryRow, value: real)
    requires p.Positive() && Fits(el, x) && WellFormedSide(el, s) && s.Modelled? && i < |s.nodes| && k < |el.dofs|
    requires row == BoundaryRows(p, el, x, s, i)(k)
    requires value == row.g - row.a * (p.phi0 * Potential(el, x, k, s.nodes[i]))
    ensures SideBlock(p, el, x, s, i)(k)
         == if row.dirichlet then [] else [Add(At(el, k, s.nodes[i]), -(SideScale(p, el, s, i, k) * value))]
    ensures DirichletBlock(p, el, x, s, i)(k)
         == if row.dirichlet then [Add(Dof(el, k, s.nodes[i]), -(value / p.phi0))] else []
  {
    assert value == BoundaryValue(p, el, x, s, i, k);
    hide BoundaryValue, SideScale;
    var a := SideAdd(p, el, x, s, i, k);
    assert a == Add(At(el, k, s.nodes[i]), -(SideScale(p, el, s, i, k) * value));
    hide SideAdd;
  }

  method AssemblePoint(p: Params, el: Element, x: seq<real>, first: seq<nat>, fe: array<real>, s: Side, i: nat,
                       d: map<nat, real>, ghost adds: seq<Add<Slot>>, ghost imposed: seq<Add<nat>>)
    returns (r: map<nat, real>)
    requires p.Positive() && Fits(el, x) && WellFormedSide(el, s) && s.Modelled? && i < |s.nodes|
    requires Located(el, first) && Holds(el, fe[..], adds) && Records(d, imposed)
    modifies fe
    ensures Holds(el, fe[..], adds + Flat(SideBlock(p, el, x, s, i), |el.dofs|))
    ensures Records(r, imposed + Flat(DirichletBlock(p, el, x, s, i), |el.dofs|))
  {
    hide Holds, Located, Flat, SideBlock, DirichletBlock, Records, Potentials;
    ghost var list, rows := SideBlock(p, el, x, s, i), DirichletBlock(p, el, x, s, i);
    FlatNone(adds, list);
    FlatNone(imposed, rows);
    var boundary := BoundaryRows(p, el, x, s, i);
    hide BoundaryRows;
    r := d;
    for k := 0 to |el.dofs|
      invariant Holds(el, fe[..], adds + Flat(list, k))
      invariant Records(r, imposed + Flat(rows, k))
    {
      FlatNext(adds, list, k);
      FlatNext(imposed, rows, k);
      var id := Id(el, k, s.nodes[i]);
      var row := boundary(k);
      var bcVal := row.g - row.a * (p.phi0 * Potential(el, x, k, s.nodes[i]));
      SideBlockAt(p, el, x, s, i, k, row, bcVal);
      if row.dirichlet {
        r := Record(r, el.dofs[k][id], -(bcVal / p.phi0), imposed + Flat(rows, k));
        assert (adds + Flat(list, k)) + [] == adds + Flat(list, k);
      } else {
        assert (imposed + Flat(rows, k)) + [] == imposed + Flat(rows, k);
        AddTo(el, first, fe, k, id, -(SideScale(p, el, s, i, k) * bcVal), adds + Flat(list, k));
      }
    }
  }

  lemma OuterAt(p: Params, el: Element, x: seq<real>, s: Side, i: nat)
    requires p.Positive() && Fits(el, x) && WellFormedSide(el, s) && i < |s.nodes| && s.Outer?
    ensures SidePoint(p, el, x, s)(i) == [Add(At(el, el.u, s.nodes[i]), -(s.areas[i] * s.normalPolarization[i]))]
    ensures DirichletPoint(p, el, x, s)(i) == []
  {
    assert OuterAdd(p, el, s, i) == Add(At(el, el.u, s.nodes[i]), -(s.areas[i] * s.normalPolarization[i]));
  }

  method AssembleSide(p: Params, el: Element, x: seq<real>, first: seq<nat>, fe: array<real>, s: Side,
                      d: map<nat, real>, ghost adds: seq<Add<Slot>>, ghost imposed: seq<Add<nat>>)
    returns (r: map<nat, real>)
    requires p.Positive() && Fits(el, x) && WellFormedSide(el, s)
    requires Located(el, first) && Holds(el, fe[..], adds) && Records(d, imposed)
    modifies fe
    ensures Holds(el, fe[..], adds + Flat(SidePoint(p, el, x, s), |s.nodes|))
    ensures Records(r, imposed + Flat(DirichletPoint(p, el, x, s), |s.nodes|))
  {
    hide Holds, Located, Flat, SideBlock, DirichletBlock, Records;
    ghost var list, rows := SidePoint(p, el, x, s), DirichletPoint(p, el, x, s);
    FlatNone(adds, list);
    FlatNone(imposed, rows);
    r := d;
    for i := 0 to |s.nodes|
      invariant Holds(el, fe[..], adds + Flat(list, i))
      invariant Records(r, imposed + Flat(rows, i))
    {
      FlatNext(adds, list, i);
      FlatNext(imposed, rows, i);
      if s.Modelled? {
        r := AssemblePoint(p, el, x, first, fe, s, i, r, adds + Flat(list, i), imposed + Flat(rows, i));
      } else {
        OuterAt(p, el, x, s, i);
        assert (imposed + Flat(rows, i)) + [] == imposed + Flat(rows, i);
        AddTo(el, first, fe, el.u, Id(el, el.u, s.nodes[i]), -(s.areas[i] * s.normalPolarization[i]),
              adds + Flat(list, i));
      }
    }
  }

  method AssembleSides(p: Params, el: Element, x: seq<real>, first: seq<nat>, fe: array<real>,
                       d: map<nat, real>, ghost adds: seq<Add<Slot>>, ghost imposed: seq<Add<nat>>)
    returns (r: map<nat, real>)
    requires p.Positive() && Fits(el, x)
    requires Located(el, first) && Holds(el, fe[..], adds) && Records(d, imposed)
    modifies fe
    ensures Holds(el, fe[..], adds + Flat(SideAdds(p, el, x), |el.sides|))
    ensures Records(r, imposed + Flat(DirichletSides(p, el, x), |el.sides|))
  {
    hide Holds, Located, Flat, SidePoint, DirichletPoint, Records;
    ghost var list, rows := SideAdds(p, el, x), DirichletSides(p, el, x);
    FlatNone(adds, list);
    FlatNone(imposed, rows);
    r := d;
    for j := 0 to |el.sides|
      invariant Holds(el, fe[..], adds + Flat(list, j))
      invariant Records(r, imposed + Flat(rows, j))
    {
      FlatNext(adds, list, j);
      FlatNext(imposed, rows, j);
      r := AssembleSide(p, el, x, first, fe, el.sides[j], r, adds + Flat(list, j), imposed + Flat(rows, j));
    }
  }

  // ---------------------------------------------------------------------------------------
  // Elements

  /** The element vector of one element together with the global numbers of its entries. */
  method AssembleElement(p: Params, ex: ExpFun, el: Element, x: seq<real>, d: map<nat, real>,
                         ghost imposed: seq<Add<nat>>)
    returns (fe: array<real>, idx: seq<nat>, r: map<nat, real>)
    requires IsExp(ex) && p.Positive() && Fits(el, x) && Records(d, imposed)
    ensures fresh(fe) && idx == Joined(el.dofs) && fe.Length == |idx|
    ensures Holds(el, fe[..], ElementAdds(p, ex, el, x))
    ensures Records(r, imposed + Flat(DirichletSides(p, el, x), |el.sides|))
  {
    hide Flat, Records, NodeAdds, EdgeAdds, SideAdds, DirichletSides, Local;
    idx := GatherDofs(el.dofs, []);
    var first := Reposition(el.dofs, []);
    assert Blocks(el.dofs, []) == el.dofs;
    JoinedAt(el.dofs);
    fe := new real[|idx|](_ => 0.0);
    HoldsNothing(el, fe[..]);
    hide Holds, Joined, Total, Blocks;
    assert Located(el, first);
    ghost var nodes, edges := Flat(NodeAdds(p, el, x), el.nNodes), Flat(EdgeAdds(p, ex, el, x), |el.edges|);
    var data := AssembleNodes(p, el, x, first, fe, []);
    assert [] + nodes == nodes;
    AssembleEdges(p, ex, el, x, first, fe, data, nodes);
    r := AssembleSides(p, el, x, first, fe, d, nodes + edges, imposed);
  }

  method AssembleEdges(p: Params, ex: ExpFun, el: Element, x: seq<real>, first: seq<nat>, fe: array<real>,
                       data: seq<PointData>, ghost adds: seq<Add<Slot>>)
    requires IsExp(ex) && p.Positive() && Fits(el, x) && NodeData(p, el, x, data)
    requires Located(el, first) && Holds(el, fe[..], adds)
    modifies fe
    ensures Holds(el, fe[..], adds + Flat(EdgeAdds(p, ex, el, x), |el.edges|))
  {
    hide Holds, Located, Local, Flat, NodeData, OneEdge;
    ghost var list := EdgeAdds(p, ex, el, x);
    FlatNone(adds, list);
    for i := 0 to |el.edges|
      invariant Holds(el, fe[..], adds + Flat(list, i))
    {
      FlatNext(adds, list, i);
      AssembleEdge(p, ex, el, x, first, fe, el.edges[i], data, adds + Flat(list, i));
    }
  }

  // ---------------------------------------------------------------------------------------
  // The whole mesh

  /** Adding the element vector of element e extends the sums by its contributions. */
  lemma ElementLanded(m: Mesh, ex: ExpFun, x: seq<real>, e: nat, fe: seq<real>, g: nat)
    requires IsExp(ex) && Solvable(m, x) && e < |m.elements|
    requires Holds(m.elements[e], fe, ElementAdds(m.p, ex, m.elements[e], x))
    ensures Entry(Flat(ElementGlobal(m, ex, x), e + 1), g)
         == Entry(Flat(ElementGlobal(m, ex, x), e), g)
          + Sum(Landing(Joined(m.elements[e].dofs), fe, g), Total(m.elements[e].dofs))
  {
    var el := m.elements[e];
    ElementInRange(m.p, ex, el, x);
    var adds := ElementAdds(m.p, ex, el, x);
    hide ElementAdds;
    LandingComplete(el, fe, adds, g);
    DotRelabel(el, adds, Delta(g));
    DotConcat(Flat(ElementGlobal(m, ex, x), e), ElementGlobal(m, ex, x)(e), Delta(g));
  }

  lemma AllLanded(m: Mesh, ex: ExpFun, x: seq<real>, e: nat, fe: seq<real>)
    requires IsExp(ex) && Solvable(m, x) && e < |m.elements|
    requires Holds(m.elements[e], fe, ElementAdds(m.p, ex, m.elements[e], x))
    ensures forall g: nat {:trigger Entry(Flat(ElementGlobal(m, ex, x), e + 1), g)} ::
              (Entry(Flat(ElementGlobal(m, ex, x), e + 1), g)
               == Entry(Flat(ElementGlobal(m, ex, x), e), g)
                + Sum(Landing(Joined(m.elements[e].dofs), fe, g), Total(m.elements[e].dofs)))
  {
    forall g: nat
      ensures Entry(Flat(ElementGlobal(m, ex, x), e + 1), g)
           == Entry(Flat(ElementGlobal(m, ex, x), e), g)
            + Sum(Landing(Joined(m.elements[e].dofs), fe, g), Total(m.elements[e].dofs))
    {
      ElementLanded(m, ex, x, e, fe, g);
    }
  }

  /** The global numbers of an element are in range. */
  lemma NumbersBelow(el: Element, size: nat)
    requires WellFormed(el) && Covers(el, size)
    ensures |Joined(el.dofs)| == Total(el.dofs)
    ensures forall p :: 0 <= p < |Joined(el.dofs)| ==> Joined(el.dofs)[p] < size
  {
    JoinedAt(el.dofs);
    forall p | 0 <= p < |Joined(el.dofs)| ensures Joined(el.dofs)[p] < size {
      var k, i := NoGap(el.dofs, |el.dofs|, p);
      assert el.dofs[k][i] < size;
    }
  }

  ghost predicate Summed(m: Mesh, ex: ExpFun, x: seq<real>, e: nat, r: seq<real>)
    requires IsExp(ex) && Solvable(m, x)
  {
    |r| == m.size && forall g: nat :: g < m.size ==> r[g] == Entry(Flat(ElementGlobal(m, ex, x), e), g)
  }

  /** One element: assemble and add. */
  method AddElement(m: Mesh, ex: ExpFun, x: seq<real>, e: nat, r: array<real>, d: map<nat, real>)
    returns (d': map<nat, real>)
    requires IsExp(ex) && Solvable(m, x) && e < |m.elements|
    requires Summed(m, ex, x, e, r[..]) && Records(d, Flat(DirichletElement(m, x), e))
    modifies r
    ensures Summed(m, ex, x, e + 1, r[..]) && Records(d', Flat(DirichletElement(m, x), e + 1))
  {
    hide Records, ElementAdds, Entry, Holds, DirichletSides, Joined, Total;
    var el := m.elements[e];
    var fe, idx;
    fe, idx, d' := AssembleElement(m.p, ex, el, x, d, Flat(DirichletElement(m, x), e));
    NumbersBelow(el, m.size);
    AllLanded(m, ex, x, e, fe[..]);
    hide Flat, ElementGlobal, Sum;
    AddVector(r, fe, idx);
  }

  /** The residual of the nonlinear system. */
  method AssembleResidual(m: Mesh, ex: ExpFun, x: seq<real>) returns (r: array<real>)
    requires IsExp(ex) && Solvable(m, x)
    ensures fresh(r) && r.Length == m.size
    ensures forall g: nat :: g < m.size ==> r[g] == Residual(m, ex, x, g)
  {
    hide Records, ElementGlobal, DirichletElement;
    r := new real[m.size](_ => 0.0);
    var dirichlet: map<nat, real> := map[];
    RecordsNothing();
    for e := 0 to |m.elements|
      invariant Summed(m, ex, x, e, r[..])
      invariant Records(dirichlet, Flat(DirichletElement(m, x), e))
    {
      dirichlet := AddElement(m, ex, x, e, r, dirichlet);
    }
    ImposedBelow(m, x);
    hide Flat;
    SetRows(r, dirichlet, Imposed(m, x));
  }

  lemma RecordsNothing()
    ensures Records(map[], [])
  {}

  lemma BlockBelow(p: Params, el: Element, x: seq<real>, s: Side, i: nat)
    requires p.Positive() && Fits(el, x) && WellFormedSide(el, s) && s.Modelled? && i < |s.nodes|
    ensures PlacesBelow(Flat(DirichletBlock(p, el, x, s, i), |el.dofs|), |x|)
  {
    forall k: nat | k < |el.dofs| ensures PlacesBelow(DirichletBlock(p, el, x, s, i)(k), |x|) {
      var adds := DirichletBlock(p, el, x, s, i)(k);
      if BoundaryRows(p, el, x, s, i)(k).dirichlet {
        hide BoundaryValue;
        assert |adds| == 1 && adds[0].at == el.dofs[k][Id(el, k, s.nodes[i])];
      }
    }
    hide DirichletBlock, PlacesBelow;
    FlatBelow(DirichletBlock(p, el, x, s, i), |el.dofs|, |x|);
  }

  lemma SidesBelow(p: Params, el: Element, x: seq<real>)
    requires p.Positive() && Fits(el, x)
    ensures PlacesBelow(Flat(DirichletSides(p, el, x), |el.sides|), |x|)
  {
    hide DirichletBlock;
    forall j: nat | j < |el.sides| ensures PlacesBelow(DirichletSides(p, el, x)(j), |x|) {
      var s := el.sides[j];
      forall i: nat | i < |s.nodes| ensures PlacesBelow(DirichletPoint(p, el, x, s)(i), |x|) {
        if s.Modelled? { BlockBelow(p, el, x, s, i); }
      }
      FlatBelow(DirichletPoint(p, el, x, s), |s.nodes|, |x|);
    }
    FlatBelow(DirichletSides(p, el, x), |el.sides|, |x|);
  }

  /** Only rows of the system are imposed. */
  lemma ImposedBelow(m: Mesh, x: seq<real>)
    requires Solvable(m, x)
    ensures PlacesBelow(Imposed(m, x), m.size)
  {
    forall e: nat | e < |m.elements| ensures PlacesBelow(DirichletElement(m, x)(e), m.size) {
      SidesBelow(m.p, m.elements[e], x);
    }
    hide DirichletElement;
    FlatBelow(DirichletElement(m, x), |m.elements|, m.size);
  }

  /** The rows of imposed unknowns are replaced. */
  method SetRows(r: array<real>, rows: map<nat, real>, ghost imposed: seq<Add<nat>>)
    requires Records(rows, imposed) && PlacesBelow(imposed, r.Length)
    modifies r
    ensures forall g: nat :: g < r.Length ==>
              r[g] == if Touches(imposed, g) then Entry(imposed, g) else old(r[g])
  {
    hide Entry;
    var rest := rows.Keys;
    while rest != {}
      invariant rest <= rows.Keys
      invariant forall g: nat :: g < r.Length ==> r[g] == if g in rows && g !in rest then rows[g] else old(r[g])
      decreases |rest|
    {
      var g :| g in rest;
      assert g in rows;
      r[g] := rows[g];
      rest := rest - {g};
    }
  }
}
