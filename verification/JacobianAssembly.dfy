/** The assembly of the Jacobian, organised like the one of the residual. */
module JacobianAssembly {
  import opened Calculus
  import opened Exponential
  import opened EdgeFlux
  import opened Forms
  import opened BoxMesh
  import opened BoxSystem
  import opened BoxJacobian
  import opened Layout
  import opened ElementVector
  import opened Scatter
  import opened Assembly

  // ---------------------------------------------------------------------------------------
  // Nodes

  lemma RateRowAt(p: Params, el: Element, x: seq<real>, n: nat, k: nat, j: nat, d: PointData, value: real)
    requires p.Positive() && Fits(el, x) && n < el.nNodes && k < |el.dofs| && j < |el.dofs| && d == Local(p, el, x, n)
    requires value == Signed(el.positive[k], el.volumes[n] * (d.drate(k, j) * p.phi0) / p.r0)
    ensures RateRow(p, el, x, n, k)(j) == [Add(Place(At(el, k, n), At(el, j, n)), value)]
  {
    assert RateEntry(p, el, x, n, k, j).val == value;
  }

  /** Derivatives of the net rate of block k. */
  method AssembleRates(p: Params, el: Element, x: seq<real>, first: seq<nat>, ke: array2<real>, n: nat, k: nat,
                       d: PointData, ghost adds: JacAdds)
    requires p.Positive() && Fits(el, x) && n < el.nNodes && k < |el.dofs| && d == Local(p, el, x, n)
    requires Located(el, first) && HoldsMatrix(el, ke, adds)
    modifies ke
    ensures HoldsMatrix(el, ke, adds + Flat(RateRow(p, el, x, n, k), |el.dofs|))
  {
    hide HoldsMatrix, Located, Local, Flat, RateRow;
    ghost var list := RateRow(p, el, x, n, k);
    FlatNone(adds, list);
    for j := 0 to |el.dofs|
      invariant HoldsMatrix(el, ke, adds + Flat(list, j))
    {
      FlatNext(adds, list, j);
      var value := Signed(el.positive[k], el.volumes[n] * (d.drate(k, j) * p.phi0) / p.r0);
      RateRowAt(p, el, x, n, k, j, d, value);
      AddToMatrix(el, first, ke, At(el, k, n), At(el, j, n), value, adds + Flat(list, j));
    }
  }

  lemma ChargeAt(p: Params, el: Element, x: seq<real>, n: nat, k: nat, d: PointData, drho: real, value: real)
    requires p.Positive() && Fits(el, x) && n < el.nNodes && k < |el.dofs| && d == Local(p, el, x, n) && k != el.u
    requires drho == d.drho(k) * p.phi0 && value == -(el.volumes[n] * drho / p.c0)
    ensures ChargeSlope(p, el, x, n)(k) == drho
    ensures NodeJacBlock(p, el, x, n)(k)
         == [Add(Place(At(el, el.u, n), At(el, k, n)), value)] + Flat(RateRow(p, el, x, n, k), |el.dofs|)
  {
    hide RateRow, Flat;
    assert ChargeSlope(p, el, x, n)(k) == drho;
    assert ChargeEntry(p, el, x, n, k) == Add(Place(At(el, el.u, n), At(el, k, n)), value);
    hide ChargeEntry;
  }

  /** The charge column of every carrier with its rate row; the diagonal entry of the potential
      collects minus the sum of the charge derivatives. */
  method AssembleNodeJacobian(p: Params, el: Element, x: seq<real>, first: seq<nat>, ke: array2<real>, n: nat,
                              d: PointData, ghost adds: JacAdds)
    requires p.Positive() && Fits(el, x) && n < el.nNodes && d == Local(p, el, x, n)
    requires Located(el, first) && HoldsMatrix(el, ke, adds)
    modifies ke
    ensures HoldsMatrix(el, ke, adds + NodeJac(p, el, x)(n))
  {
    hide HoldsMatrix, Located, Local, Flat, RateRow, NodeJacBlock, ChargeSlope;
    ghost var list := NodeJacBlock(p, el, x, n);
    FlatNone(adds, list);
    var drhoU := 0.0;
    for k := 0 to |el.dofs|
      invariant HoldsMatrix(el, ke, adds + Flat(list, k))
      invariant drhoU == -Sum(ChargeSlope(p, el, x, n), k)
    {
      FlatNext(adds, list, k);
      if k != el.u {
        var drho := d.drho(k) * p.phi0;
        drhoU := drhoU - drho;
        var value := -(el.volumes[n] * drho / p.c0);
        ChargeAt(p, el, x, n, k, d, drho, value);
        ghost var before := adds + Flat(list, k);
        var entry := Add(Place(At(el, el.u, n), At(el, k, n)), value);
        AddToMatrix(el, first, ke, At(el, el.u, n), At(el, k, n), value, before);
        AssembleRates(p, el, x, first, ke, n, k, d, before + [entry]);
        assert (before + [entry]) + Flat(RateRow(p, el, x, n, k), |el.dofs|) == before + list(k);
      } else {
        NoChargeColumn(p, el, x, n);
        assert (adds + Flat(list, k)) + [] == adds + Flat(list, k);
      }
    }
    ghost var before := adds + Flat(list, |el.dofs|);
    var value := -(el.volumes[n] * drhoU / p.c0);
    DiagonalAt(p, el, x, n, drhoU, value);
    AddToMatrix(el, first, ke, At(el, el.u, n), At(el, el.u, n), value, before);
    assert before + [ChargeDiagonal(p, el, x, n)] == adds + (Flat(list, |el.dofs|) + [ChargeDiagonal(p, el, x, n)]);
  }

  lemma NoChargeColumn(p: Params, el: Element, x: seq<real>, n: nat)
    requires p.Positive() && Fits(el, x) && n < el.nNodes
    ensures NodeJacBlock(p, el, x, n)(el.u) == [] && ChargeSlope(p, el, x, n)(el.u) == 0.0
  {}

  lemma DiagonalAt(p: Params, el: Element, x: seq<real>, n: nat, drhoU: real, value: real)
    requires p.Positive() && Fits(el, x) && n < el.nNodes
    requires drhoU == -Sum(ChargeSlope(p, el, x, n), |el.dofs|) && value == -(el.volumes[n] * drhoU / p.c0)
    ensures ChargeDiagonal(p, el, x, n) == Add(Place(At(el, el.u, n), At(el, el.u, n)), value)
    ensures NodeJac(p, el, x)(n) == Flat(NodeJacBlock(p, el, x, n), |el.dofs|) + [ChargeDiagonal(p, el, x, n)]
  {}

  // ---------------------------------------------------------------------------------------
  // Edges

  /** Value a in column n1 and b in column n2: positive in row n1, negative in row n2. */
  method AddAcrossMatrix(el: Element, first: seq<nat>, ke: array2<real>, e: Edge, k: nat, j: nat, a: real, b: real,
                         ghost adds: JacAdds)
    requires WellFormed(el) && WellFormedEdge(el, e) && k < |el.dofs| && j < |el.dofs|
    requires Located(el, first) && HoldsMatrix(el, ke, adds)
    modifies ke
    ensures HoldsMatrix(el, ke, adds + AcrossJac(el, e, k, j, a, b))
  {
    hide HoldsMatrix, Located;
    var r1, r2, c1, c2 := At(el, k, e.n1), At(el, k, e.n2), At(el, j, e.n1), At(el, j, e.n2);
    ghost var s1 := adds + [Add(Place(r1, c1), a)];
    ghost var s2 := s1 + [Add(Place(r1, c2), b)];
    ghost var s3 := s2 + [Add(Place(r2, c1), -a)];
    AddToMatrix(el, first, ke, r1, c1, a, adds);
    AddToMatrix(el, first, ke, r1, c2, b, s1);
    AddToMatrix(el, first, ke, r2, c1, -a, s2);
    AddToMatrix(el, first, ke, r2, c2, -b, s3);
    assert s3 + [Add(Place(r2, c2), -b)] == adds + AcrossJac(el, e, k, j, a, b);
  }

  /** Two sets of entries for the same blocks add up. */
  lemma AcrossTwice(el: Element, e: Edge, k: nat, j: nat, a: real, b: real, a': real, b': real, w: Place -> real)
    requires WellFormed(el) && WellFormedEdge(el, e) && k < |el.dofs| && j < |el.dofs|
    ensures Dot(AcrossJac(el, e, k, j, a, b) + AcrossJac(el, e, k, j, a', b'), w)
         == Dot(AcrossJac(el, e, k, j, a + a', b + b'), w)
  {
    var r1, r2, c1, c2 := At(el, k, e.n1), At(el, k, e.n2), At(el, j, e.n1), At(el, j, e.n2);
    var p, q, r, s := Place(r1, c1), Place(r1, c2), Place(r2, c1), Place(r2, c2);
    DotConcat(AcrossJac(el, e, k, j, a, b), AcrossJac(el, e, k, j, a', b'), w);
    DotFour(Add(p, a), Add(q, b), Add(r, -a), Add(s, -b), w);
    DotFour(Add(p, a'), Add(q, b'), Add(r, -a'), Add(s, -b'), w);
    DotFour(Add(p, a + a'), Add(q, b + b'), Add(r, -(a + a')), Add(s, -(b + b')), w);
  }

  /** Derivatives of the exponential flux; row of end 1. */
  method ExponentialRow(ex: ExpFun, s: Edge1, m: Slopes1) returns (r: Row1)
    requires IsExp(ex) && s.Geometric()
    ensures r == RowSG(ex, s, m)
  {
    hide PartsSG;
    var g := ExponentialFactors(ex, s);
    var half := 0.5 * Signed(s.positive, s.area / s.len / s.scale);
    var dc1, dc2 := -m.s1 * m.phi0, -m.s2 * m.phi0;
    var e1 := End(half, g.b1, g.l, s.c1, dc1);
    var e2 := End(half, g.b2, g.r, s.c2, dc2);
    var tmp := GradientTerm(half, g, m, s.len);
    assert half == HalfCoefficient(s);
    hide End, GradientTerm, HalfCoefficient;
    r := Row1(e1.own + e1.drop + e2.drop, e2.own - e1.drop - e2.drop,
              e1.field + e2.field - e1.own - tmp, -e1.field - e2.field - e2.own + tmp);
  }

  /** The carrier entries of one edge with the exponential flux. */
  method AssembleExponential(ex: ExpFun, el: Element, first: seq<nat>, ke: array2<real>, e: Edge, k: nat,
                             s: Edge1, m: Slopes1, ghost adds: JacAdds)
    requires IsExp(ex) && s.Geometric() && WellFormed(el) && WellFormedEdge(el, e) && k < |el.dofs|
    requires Located(el, first) && HoldsMatrix(el, ke, adds)
    modifies ke
    ensures HoldsMatrix(el, ke, adds + EdgeEntries(el, e, k, RowSG(ex, s, m)))
  {
    hide HoldsMatrix, Located, RowSG, AcrossJac;
    var r := ExponentialRow(ex, s, m);
    AddAcrossMatrix(el, first, ke, e, k, k, r.q1, r.q2, adds);
    AddAcrossMatrix(el, first, ke, e, k, el.u, r.p1, r.p2, adds + AcrossJac(el, e, k, k, r.q1, r.q2));
    assert (adds + AcrossJac(el, e, k, k, r.q1, r.q2)) + AcrossJac(el, e, k, el.u, r.p1, r.p2)
        == adds + EdgeEntries(el, e, k, r);
  }

  /** The carrier entries of one edge with the mean conductivity: first the conductance, then
      the dependence of the conductivities on the potentials. */
  method AssembleMean(ex: ExpFun, el: Element, first: seq<nat>, ke: array2<real>, e: Edge, k: nat,
                      s: Edge1, m: Slopes1, ghost adds: JacAdds)
    requires IsExp(ex) && s.Geometric() && WellFormed(el) && WellFormedEdge(el, e) && k < |el.dofs|
    requires Located(el, first) && HoldsMatrix(el, ke, adds)
    modifies ke
    ensures HoldsMatrix(el, ke, adds + EdgeEntries(el, e, k, RowMean(s, m)))
  {
    hide HoldsMatrix, Located, AcrossJac, Dot;
    var c := s.area / s.len / s.scale;
    var mean := c * (0.5 * (s.c1 + s.c2));
    var w := 0.5 * (c * (m.phi0 * (s.q1 - s.q2)));
    var w1, w2 := w * m.s1, w * m.s2;
    AddAcrossMatrix(el, first, ke, e, k, k, mean, -mean, adds);
    AddAcrossMatrix(el, first, ke, e, k, k, -w1, -w2, adds + AcrossJac(el, e, k, k, mean, -mean));
    ghost var r := RowMean(s, m);
    assert r == Row1(mean - w1, -mean - w2, w1, w2);
    ghost var two := AcrossJac(el, e, k, k, mean, -mean) + AcrossJac(el, e, k, k, -w1, -w2);
    ghost var own := AcrossJac(el, e, k, k, r.q1, r.q2);
    hide RowMean;
    assert (adds + AcrossJac(el, e, k, k, mean, -mean)) + AcrossJac(el, e, k, k, -w1, -w2) == adds + two;
    forall i: Slot, j: Slot ensures Dot(two, Spot(Place(i, j))) == Dot(own, Spot(Place(i, j))) {
      AcrossTwice(el, e, k, k, mean, -mean, -w1, -w2, Spot(Place(i, j)));
    }
    Exchange(el, ke, adds, two, own);
    AddAcrossMatrix(el, first, ke, e, k, el.u, w1, w2, adds + own);
    assert (adds + own) + AcrossJac(el, e, k, el.u, w1, w2) == adds + EdgeEntries(el, e, k, r);
  }

  function EdgeEntries(el: Element, e: Edge, k: nat, r: Row1): JacAdds
    requires WellFormed(el) && WellFormedEdge(el, e) && k < |el.dofs|
  {
    AcrossJac(el, e, k, k, r.q1, r.q2) + AcrossJac(el, e, k, el.u, r.p1, r.p2)
  }

  lemma CarrierJacAt(p: Params, ex: ExpFun, el: Element, x: seq<real>, e: Edge, k: nat)
    requires IsExp(ex) && p.Positive() && Fits(el, x) && WellFormedEdge(el, e) && k < |el.dofs|
    ensures CarrierJac(p, ex, el, x, e)(k)
         == if k == el.u then []
            else EdgeEntries(el, e, k, Row(ex, p.scheme, EdgeState(p, el, x, e, k), SlopesAt(p, el, x, e, k)))
  {}

  /** The entries of one carrier's flux across an edge. */
  method AssembleCarrierEdge(p: Params, ex: ExpFun, el: Element, x: seq<real>, first: seq<nat>, ke: array2<real>,
                             e: Edge, k: nat, data: seq<PointData>, ghost adds: JacAdds)
    requires IsExp(ex) && p.Positive() && Fits(el, x) && WellFormedEdge(el, e) && NodeData(p, el, x, data)
    requires Located(el, first) && HoldsMatrix(el, ke, adds) && k < |el.dofs| && k != el.u
    modifies ke
    ensures HoldsMatrix(el, ke, adds + CarrierJac(p, ex, el, x, e)(k))
  {
    hide HoldsMatrix, Located, Local, RowSG, RowMean, CarrierJac, EdgeEntries;
    CarrierJacAt(p, ex, el, x, e, k);
    var d1, d2 := data[e.n1], data[e.n2];
    assert p.mu0 * p.c0 > 0.0;
    var s := Edge1(e.area, e.len, el.positive[k], p.mu0 * p.c0, d1.sigma(k), d2.sigma(k),
                   Potential(el, x, el.u, e.n1), Potential(el, x, el.u, e.n2),
                   Potential(el, x, k, e.n1), Potential(el, x, k, e.n2));
    var m := Slopes1(p.phi0, d1.dsigma(k), d2.dsigma(k),
                     Inner(d1.dgrad(k), e.dir) * p.phi0 / p.x0, Inner(d2.dgrad(k), e.dir) * p.phi0 / p.x0);
    assert s == EdgeState(p, el, x, e, k) && m == SlopesAt(p, el, x, e, k);
    if p.scheme == BIMSG {
      AssembleExponential(ex, el, first, ke, e, k, s, m, adds);
    } else {
      AssembleMean(ex, el, first, ke, e, k, s, m, adds);
    }
  }

  method AssembleEdgeJacobian(p: Params, ex: ExpFun, el: Element, x: seq<real>, first: seq<nat>, ke: array2<real>,
                              e: Edge, data: seq<PointData>, ghost adds: JacAdds)
    requires IsExp(ex) && p.Positive() && Fits(el, x) && WellFormedEdge(el, e) && NodeData(p, el, x, data)
    requires Located(el, first) && HoldsMatrix(el, ke, adds)
    modifies ke
    ensures HoldsMatrix(el, ke, adds + OneEdgeJac(p, ex, el, x, e))
  {
    hide HoldsMatrix, Located, Local, Flat, AcrossJac, RowSG, RowMean, CarrierJac, EdgeEntries;
    var perm := (el.permTrace[e.n1] + el.permTrace[e.n2]) / 6.0;
    var coeff := p.l2 * perm * e.area / e.len;
    assert coeff == PoissonCoefficient(p, el, e);
    hide PoissonCoefficient;
    AddAcrossMatrix(el, first, ke, e, el.u, el.u, coeff, -coeff, adds);
    ghost var before := adds + AcrossJac(el, e, el.u, el.u, coeff, -coeff);
    ghost var list := CarrierJac(p, ex, el, x, e);
    FlatNone(before, list);
    for k := 0 to |el.dofs|
      invariant HoldsMatrix(el, ke, before + Flat(list, k))
    {
      FlatNext(before, list, k);
      if k != el.u {
        AssembleCarrierEdge(p, ex, el, x, first, ke, e, k, data, before + Flat(list, k));
      } else {
        CarrierJacAt(p, ex, el, x, e, k);
        assert (before + Flat(list, k)) + [] == before + Flat(list, k);
      }
    }
    assert before + Flat(list, |el.dofs|)
        == adds + (AcrossJac(el, e, el.u, el.u, coeff, -coeff) + Flat(list, |el.dofs|));
  }

  // ---------------------------------------------------------------------------------------
  // Sides

  function Stored(d: map<nat, map<nat, real>>, g: nat, j: nat): real {
    if g in d && j in d[g] then d[g][j] else 0.0
  }

  /** The imposed rows recorded so far: which rows, and the sum of the entries for each column. */
  ghost predicate RecordsMatrix(d: map<nat, map<nat, real>>, pairs: PairAdds, imposed: seq<Add<nat>>, size: nat) {
    && (forall g: nat :: g in d <==> Touches(imposed, g))
    && (forall g: nat :: g in d ==> g < size)
    && (forall g: nat, j: nat :: g in d && j in d[g] ==> j < size)
    && forall g: nat, j: nat :: Stored(d, g, j) == Dot(pairs, BothPair(Delta(g), Delta(j)))
  }

  /** One entry of row i while that row is being recorded. */
  ghost predicate RecordsRow(d: map<nat, map<nat, real>>, i: nat, row: map<nat, real>, pairs: PairAdds,
                             imposed: seq<Add<nat>>, size: nat) {
    && (forall g: nat :: g != i ==> (g in d <==> Touches(imposed, g)))
    && (forall g: nat :: g in d ==> g < size)
    && (forall g: nat, j: nat :: g in d && j in d[g] ==> j < size)
    && (forall j: nat :: j in row ==> j < size)
    && forall g: nat, j: nat :: Stored(d[i := row], g, j) == Dot(pairs, BothPair(Delta(g), Delta(j)))
  }

  lemma RowOpened(d: map<nat, map<nat, real>>, i: nat, row: map<nat, real>, pairs: PairAdds, imposed: seq<Add<nat>>,
                  size: nat)
    requires RecordsMatrix(d, pairs, imposed, size) && row == (if i in d then d[i] else map[])
    ensures RecordsRow(d, i, row, pairs, imposed, size)
  {}

  lemma RowStep(d: map<nat, map<nat, real>>, i: nat, row: map<nat, real>, pairs: PairAdds, imposed: seq<Add<nat>>,
                size: nat, j: nat, v: real)
    requires RecordsRow(d, i, row, pairs, imposed, size) && j < size
    ensures RecordsRow(d, i, row[j := (if j in row then row[j] else 0.0) + v], pairs
      + [Add(Pair(i, j), v)], imposed, size)
  {}

  lemma RowClosed(d: map<nat, map<nat, real>>, i: nat, row: map<nat, real>, pairs: PairAdds, imposed: seq<Add<nat>>,
                  size: nat, v: real)
    requires RecordsRow(d, i, row, pairs, imposed, size) && i < size
    ensures RecordsMatrix(d[i := row], pairs, imposed + [Add(i, v)], size)
  {
    hide Dot;
    forall g: nat ensures g in d[i := row] <==> Touches(imposed + [Add(i, v)], g) {
      TouchesAppend(imposed, Add(i, v), g);
    }
  }

  lemma ImposedRowAt(p: Params, el: Element, x: seq<real>, s: Side, i: nat, k: nat, j: nat, row: BoundaryRow)
    requires p.Positive() && Fits(el, x) && WellFormedSide(el, s) && s.Modelled? && i < |s.nodes|
    requires k < |el.dofs| && j < |el.dofs| && row == BoundaryRows(p, el, x, s, i)(k)
    ensures ImposedRow(p, el, x, s, i, k)(j) == [Add(Pair(Dof(el, k, s.nodes[i]), Dof(el, j, s.nodes[i])), -row.jac(j))]
    ensures SideRow(p, el, x, s, i, k)(j)
         == [Add(Place(At(el, k, s.nodes[i]), At(el, j, s.nodes[i])),
           -(SideScale(p, el, s, i, k) * (p.phi0 * row.jac(j))))]
  {
    var a, b := ImposedEntry(p, el, x, s, i, k, j), SideEntry(p, el, x, s, i, k, j);
    assert a.val == -row.jac(j);
    hide SideScale;
    assert b.val == -(SideScale(p, el, s, i, k) * (p.phi0 * row.jac(j)));
  }

  /** The derivatives of an imposed row are accumulated. */
  method RecordRow(p: Params, el: Element, x: seq<real>, s: Side, i: nat, k: nat, row: BoundaryRow,
                   d: map<nat, map<nat, real>>, ghost pairs: PairAdds, ghost imposed: seq<Add<nat>>, ghost v: real)
    returns (r: map<nat, map<nat, real>>)
    requires p.Positive() && Fits(el, x) && WellFormedSide(el, s) && s.Modelled? && i < |s.nodes|
    requires k < |el.dofs| && row == BoundaryRows(p, el, x, s, i)(k)
    requires RecordsMatrix(d, pairs, imposed, |x|)
    ensures RecordsMatrix(r, pairs + Flat(ImposedRow(p, el, x, s, i, k), |el.dofs|),
                          imposed + [Add(Dof(el, k, s.nodes[i]), v)], |x|)
  {
    hide RecordsMatrix, RecordsRow, Flat, ImposedRow, BoundaryRows;
    ghost var list := ImposedRow(p, el, x, s, i, k);
    var g := Dof(el, k, s.nodes[i]);
    var entries := if g in d then d[g] else map[];
    RowOpened(d, g, entries, pairs, imposed, |x|);
    FlatNone(pairs, list);
    for j := 0 to |el.dofs|
      invariant RecordsRow(d, g, entries, pairs + Flat(list, j), imposed, |x|)
    {
      FlatNext(pairs, list, j);
      ImposedRowAt(p, el, x, s, i, k, j, row);
      var c := Dof(el, j, s.nodes[i]);
      RowStep(d, g, entries, pairs + Flat(list, j), imposed, |x|, c, -row.jac(j));
      entries := entries[c := (if c in entries then entries[c] else 0.0) + -row.jac(j)];
    }
    RowClosed(d, g, entries, pairs + Flat(list, |el.dofs|), imposed, |x|, v);
    r := d[g := entries];
  }

  /** A row that is not imposed goes into the element matrix. */
  method AddSideRow(p: Params, el: Element, x: seq<real>, first: seq<nat>, ke: array2<real>, s: Side, i: nat, k: nat,
                    row: BoundaryRow, ghost adds: JacAdds)
    requires p.Positive() && Fits(el, x) && WellFormedSide(el, s) && s.Modelled? && i < |s.nodes|
    requires k < |el.dofs| && row == BoundaryRows(p, el, x, s, i)(k)
    requires Located(el, first) && HoldsMatrix(el, ke, adds)
    modifies ke
    ensures HoldsMatrix(el, ke, adds + Flat(SideRow(p, el, x, s, i, k), |el.dofs|))
  {
    hide HoldsMatrix, Located, Flat, SideRow, BoundaryRows, SideScale;
    ghost var list := SideRow(p, el, x, s, i, k);
    FlatNone(adds, list);
    for j := 0 to |el.dofs|
      invariant HoldsMatrix(el, ke, adds + Flat(list, j))
    {
      FlatNext(adds, list, j);
      ImposedRowAt(p, el, x, s, i, k, j, row);
      AddToMatrix(el, first, ke, At(el, k, s.nodes[i]), At(el, j, s.nodes[i]),
                  -(SideScale(p, el, s, i, k) * (p.phi0 * row.jac(j))), adds + Flat(list, j));
    }
  }

  lemma SideJacBlockAt(p: Params, el: Element, x: seq<real>, s: Side, i: nat, k: nat, row: BoundaryRow)
    requires p.Positive() && Fits(el, x) && WellFormedSide(el, s) && s.Modelled? && i < |s.nodes|
    requires k < |el.dofs| && row == BoundaryRows(p, el, x, s, i)(k)
    ensures SideJacBlock(p, el, x, s, i)(k)
         == if row.dirichlet then [] else Flat(SideRow(p, el, x, s, i, k), |el.dofs|)
    ensures ImposedBlock(p, el, x, s, i)(k)
         == if row.dirichlet then Flat(ImposedRow(p, el, x, s, i, k), |el.dofs|) else []
    ensures DirichletBlock(p, el, x, s, i)(k)
         == if row.dirichlet then [DirichletAdd(p, el, x, s, i, k)] else []
  {}

  method AssemblePointJacobian(p: Params, el: Element, x: seq<real>, first: seq<nat>, ke: array2<real>, s: Side, i: nat,
                               d: map<nat, map<nat, real>>, ghost adds: JacAdds, ghost pairs: PairAdds,
                               ghost imposed: seq<Add<nat>>)
    returns (r: map<nat, map<nat, real>>)
    requires p.Positive() && Fits(el, x) && WellFormedSide(el, s) && s.Modelled? && i < |s.nodes|
    requires Located(el, first) && HoldsMatrix(el, ke, adds) && RecordsMatrix(d, pairs, imposed, |x|)
    modifies ke
    ensures HoldsMatrix(el, ke, adds + Flat(SideJacBlock(p, el, x, s, i), |el.dofs|))
    ensures RecordsMatrix(r, pairs + Flat(ImposedBlock(p, el, x, s, i), |el.dofs|),
                          imposed + Flat(DirichletBlock(p, el, x, s, i), |el.dofs|), |x|)
  {
    hide HoldsMatrix, Located, Flat, SideJacBlock, ImposedBlock, DirichletBlock, RecordsMatrix, Potentials,
      SideRow, ImposedRow, BoundaryValue;
    ghost var list, rows := SideJacBlock(p, el, x, s, i), ImposedBlock(p, el, x, s, i);
    ghost var values := DirichletBlock(p, el, x, s, i);
    FlatNone(adds, list);
    FlatNone(pairs, rows);
    FlatNone(imposed, values);
    var boundary := BoundaryRows(p, el, x, s, i);
    hide BoundaryRows;
    r := d;
    for k := 0 to |el.dofs|
      invariant HoldsMatrix(el, ke, adds + Flat(list, k))
      invariant RecordsMatrix(r, pairs + Flat(rows, k), imposed + Flat(values, k), |x|)
    {
      FlatNext(adds, list, k);
      FlatNext(pairs, rows, k);
      FlatNext(imposed, values, k);
      var row := boundary(k);
      SideJacBlockAt(p, el, x, s, i, k, row);
      if row.dirichlet {
        ghost var v := DirichletAdd(p, el, x, s, i, k).val;
        r := RecordRow(p, el, x, s, i, k, row, r, pairs + Flat(rows, k), imposed + Flat(values, k), v);
        assert (adds + Flat(list, k)) + [] == adds + Flat(list, k);
      } else {
        assert (pairs + Flat(rows, k)) + [] == pairs + Flat(rows, k);
        assert (imposed + Flat(values, k)) + [] == imposed + Flat(values, k);
        AddSideRow(p, el, x, first, ke, s, i, k, row, adds + Flat(list, k));
      }
    }
  }

  method AssembleSideJacobian(p: Params, el: Element, x: seq<real>, first: seq<nat>, ke: array2<real>, s: Side,
                              d: map<nat, map<nat, real>>, ghost adds: JacAdds, ghost pairs: PairAdds,
                              ghost imposed: seq<Add<nat>>)
    returns (r: map<nat, map<nat, real>>)
    requires p.Positive() && Fits(el, x) && WellFormedSide(el, s)
    requires Located(el, first) && HoldsMatrix(el, ke, adds) && RecordsMatrix(d, pairs, imposed, |x|)
    modifies ke
    ensures HoldsMatrix(el, ke, adds + Flat(SideJacPoint(p, el, x, s), |s.nodes|))
    ensures RecordsMatrix(r, pairs + Flat(ImposedPoint(p, el, x, s), |s.nodes|),
                          imposed + Flat(DirichletPoint(p, el, x, s), |s.nodes|), |x|)
  {
    hide HoldsMatrix, Located, Flat, SideJacBlock, ImposedBlock, DirichletBlock, RecordsMatrix;
    ghost var list, rows, values := SideJacPoint(p, el, x, s), ImposedPoint(p, el, x, s), DirichletPoint(p, el, x, s);
    FlatNone(adds, list);
    FlatNone(pairs, rows);
    FlatNone(imposed, values);
    r := d;
    for i := 0 to |s.nodes|
      invariant HoldsMatrix(el, ke, adds + Flat(list, i))
      invariant RecordsMatrix(r, pairs + Flat(rows, i), imposed + Flat(values, i), |x|)
    {
      FlatNext(adds, list, i);
      FlatNext(pairs, rows, i);
      FlatNext(imposed, values, i);
      if s.Modelled? {
        r := AssemblePointJacobian(p, el, x, first, ke, s, i, r, adds + Flat(list, i), pairs + Flat(rows, i),
                                   imposed + Flat(values, i));
      } else {
        assert (adds + Flat(list, i)) + [] == adds + Flat(list, i);
        assert (pairs + Flat(rows, i)) + [] == pairs + Flat(rows, i);
        assert (imposed + Flat(values, i)) + [] == imposed + Flat(values, i);
      }
    }
  }

  method AssembleSidesJacobian(p: Params, el: Element, x: seq<real>, first: seq<nat>, ke: array2<real>,
                               d: map<nat, map<nat, real>>, ghost adds: JacAdds, ghost pairs: PairAdds,
                               ghost imposed: seq<Add<nat>>)
    returns (r: map<nat, map<nat, real>>)
    requires p.Positive() && Fits(el, x)
    requires Located(el, first) && HoldsMatrix(el, ke, adds) && RecordsMatrix(d, pairs, imposed, |x|)
    modifies ke
    ensures HoldsMatrix(el, ke, adds + Flat(SideJac(p, el, x), |el.sides|))
    ensures RecordsMatrix(r, pairs + Flat(ImposedSides(p, el, x), |el.sides|),
                          imposed + Flat(DirichletSides(p, el, x), |el.sides|), |x|)
  {
    hide HoldsMatrix, Located, Flat, SideJacPoint, ImposedPoint, DirichletPoint, RecordsMatrix;
    ghost var list, rows, values := SideJac(p, el, x), ImposedSides(p, el, x), DirichletSides(p, el, x);
    FlatNone(adds, list);
    FlatNone(pairs, rows);
    FlatNone(imposed, values);
    r := d;
    for j := 0 to |el.sides|
      invariant HoldsMatrix(el, ke, adds + Flat(list, j))
      invariant RecordsMatrix(r, pairs + Flat(rows, j), imposed + Flat(values, j), |x|)
    {
      FlatNext(adds, list, j);
      FlatNext(pairs, rows, j);
      FlatNext(imposed, values, j);
      r := AssembleSideJacobian(p, el, x, first, ke, el.sides[j], r, adds + Flat(list, j), pairs + Flat(rows, j),
                                imposed + Flat(values, j));
    }
  }

  // ---------------------------------------------------------------------------------------
  // Elements

  method AssembleNodesJacobian(p: Params, el: Element, x: seq<real>, first: seq<nat>, ke: array2<real>,
                               ghost adds: JacAdds)
    returns (data: seq<PointData>)
    requires p.Positive() && Fits(el, x) && Located(el, first) && HoldsMatrix(el, ke, adds)
    modifies ke
    ensures NodeData(p, el, x, data)
    ensures HoldsMatrix(el, ke, adds + Flat(NodeJac(p, el, x), el.nNodes))
  {
    hide HoldsMatrix, Located, Local, Flat, NodeJac;
    data := [];
    FlatNone(adds, NodeJac(p, el, x));
    for n := 0 to el.nNodes
      invariant |data| == n && forall i: nat :: i < n ==> data[i] == Local(p, el, x, i)
      invariant HoldsMatrix(el, ke, adds + Flat(NodeJac(p, el, x), n))
    {
      FlatNext(adds, NodeJac(p, el, x), n);
      var d := Local(p, el, x, n);
      data := data + [d];
      AssembleNodeJacobian(p, el, x, first, ke, n, d, adds + Flat(NodeJac(p, el, x), n));
    }
  }

  method AssembleEdgesJacobian(p: Params, ex: ExpFun, el: Element, x: seq<real>, first: seq<nat>, ke: array2<real>,
                               data: seq<PointData>, ghost adds: JacAdds)
    requires IsExp(ex) && p.Positive() && Fits(el, x) && NodeData(p, el, x, data)
    requires Located(el, first) && HoldsMatrix(el, ke, adds)
    modifies ke
    ensures HoldsMatrix(el, ke, adds + Flat(EdgeJac(p, ex, el, x), |el.edges|))
  {
    hide HoldsMatrix, Located, Local, Flat, NodeData, OneEdgeJac;
    ghost var list := EdgeJac(p, ex, el, x);
    FlatNone(adds, list);
    for i := 0 to |el.edges|
      invariant HoldsMatrix(el, ke, adds + Flat(list, i))
    {
      FlatNext(adds, list, i);
      AssembleEdgeJacobian(p, ex, el, x, first, ke, el.edges[i], data, adds + Flat(list, i));
    }
  }

  /** The element matrix of one element together with the global numbers of its rows. */
  method AssembleElementMatrix(p: Params, ex: ExpFun, el: Element, x: seq<real>, d: map<nat, map<nat, real>>,
                               ghost pairs: PairAdds, ghost imposed: seq<Add<nat>>)
    returns (ke: array2<real>, idx: seq<nat>, r: map<nat, map<nat, real>>)
    requires IsExp(ex) && p.Positive() && Fits(el, x) && RecordsMatrix(d, pairs, imposed, |x|)
    ensures fresh(ke) && idx == Joined(el.dofs) && |idx| == ke.Length0 == ke.Length1
    ensures HoldsMatrix(el, ke, ElementJac(p, ex, el, x))
    ensures RecordsMatrix(r, pairs + Flat(ImposedSides(p, el, x), |el.sides|),
                          imposed + Flat(DirichletSides(p, el, x), |el.sides|), |x|)
  {
    hide Flat, RecordsMatrix, NodeJac, EdgeJac, SideJac, DirichletSides, ImposedSides, Local;
    idx := GatherDofs(el.dofs, []);
    var first := Reposition(el.dofs, []);
    assert Blocks(el.dofs, []) == el.dofs;
    JoinedAt(el.dofs);
    ke := new real[|idx|, |idx|]((_, _) => 0.0);
    HoldsMatrixNothing(el, ke);
    hide HoldsMatrix, Joined, Total, Blocks;
    assert Located(el, first);
    ghost var nodes, edges := Flat(NodeJac(p, el, x), el.nNodes), Flat(EdgeJac(p, ex, el, x), |el.edges|);
    var data := AssembleNodesJacobian(p, el, x, first, ke, []);
    assert [] + nodes == nodes;
    AssembleEdgesJacobian(p, ex, el, x, first, ke, data, nodes);
    r := AssembleSidesJacobian(p, el, x, first, ke, d, nodes + edges, pairs, imposed);
  }

  // ---------------------------------------------------------------------------------------
  // Every entry has a place in the element matrix

  lemma {:induction false} FlatPlaces(el: Element, f: nat -> JacAdds, n: nat)
    requires forall i: nat :: i < n ==> PlacesInRange(el, f(i))
    ensures PlacesInRange(el, Flat(f, n))
  {
    if n > 0 { FlatPlaces(el, f, n - 1); }
  }

  lemma NodePlaces(p: Params, el: Element, x: seq<real>, n: nat)
    requires p.Positive() && Fits(el, x) && n < el.nNodes
    ensures PlacesInRange(el, NodeJac(p, el, x)(n))
  {
    hide Flat, ChargeSlope;
    forall k: nat | k < |el.dofs| && k != el.u ensures PlacesInRange(el, NodeJacBlock(p, el, x, n)(k)) {
      forall j: nat | j < |el.dofs| ensures PlacesInRange(el, RateRow(p, el, x, n, k)(j)) {}
      FlatPlaces(el, RateRow(p, el, x, n, k), |el.dofs|);
    }
    FlatPlaces(el, NodeJacBlock(p, el, x, n), |el.dofs|);
  }

  lemma EdgePlaces(p: Params, ex: ExpFun, el: Element, x: seq<real>, e: Edge)
    requires IsExp(ex) && p.Positive() && Fits(el, x) && WellFormedEdge(el, e)
    ensures PlacesInRange(el, OneEdgeJac(p, ex, el, x, e))
  {
    hide Flat, FluxRow, PoissonCoefficient;
    forall k: nat | k < |el.dofs| && k != el.u ensures PlacesInRange(el, CarrierJac(p, ex, el, x, e)(k)) {}
    hide AcrossJac;
    FlatPlaces(el, CarrierJac(p, ex, el, x, e), |el.dofs|);
  }

  lemma PointPlaces(p: Params, el: Element, x: seq<real>, s: Side, i: nat)
    requires p.Positive() && Fits(el, x) && WellFormedSide(el, s) && s.Modelled? && i < |s.nodes|
    ensures PlacesInRange(el, Flat(SideJacBlock(p, el, x, s, i), |el.dofs|))
  {
    hide Flat, SideScale;
    forall k: nat | k < |el.dofs| ensures PlacesInRange(el, SideJacBlock(p, el, x, s, i)(k)) {
      forall j: nat | j < |el.dofs| ensures PlacesInRange(el, SideRow(p, el, x, s, i, k)(j)) {
        SideRowPlaces(p, el, x, s, i, k, j);
      }
      FlatPlaces(el, SideRow(p, el, x, s, i, k), |el.dofs|);
    }
    FlatPlaces(el, SideJacBlock(p, el, x, s, i), |el.dofs|);
  }

  lemma SideRowPlaces(p: Params, el: Element, x: seq<real>, s: Side, i: nat, k: nat, j: nat)
    requires p.Positive() && Fits(el, x) && WellFormedSide(el, s) && s.Modelled? && i < |s.nodes|
    requires k < |el.dofs| && j < |el.dofs|
    ensures PlacesInRange(el, SideRow(p, el, x, s, i, k)(j))
  {}

  lemma SidePlaces(p: Params, el: Element, x: seq<real>)
    requires p.Positive() && Fits(el, x)
    ensures PlacesInRange(el, Flat(SideJac(p, el, x), |el.sides|))
  {
    hide SideJacBlock;
    forall j: nat | j < |el.sides| ensures PlacesInRange(el, SideJac(p, el, x)(j)) {
      var s := el.sides[j];
      forall i: nat | i < |s.nodes| ensures PlacesInRange(el, SideJacPoint(p, el, x, s)(i)) {
        if s.Modelled? { PointPlaces(p, el, x, s, i); }
      }
      FlatPlaces(el, SideJacPoint(p, el, x, s), |s.nodes|);
    }
    FlatPlaces(el, SideJac(p, el, x), |el.sides|);
  }

  lemma ElementPlaces(p: Params, ex: ExpFun, el: Element, x: seq<real>)
    requires IsExp(ex) && p.Positive() && Fits(el, x)
    ensures PlacesInRange(el, ElementJac(p, ex, el, x))
  {
    hide NodeJac, SideJac, OneEdgeJac, Flat;
    forall n: nat | n < el.nNodes ensures PlacesInRange(el, NodeJac(p, el, x)(n)) {
      NodePlaces(p, el, x, n);
    }
    forall i: nat | i < |el.edges| ensures PlacesInRange(el, EdgeJac(p, ex, el, x)(i)) {
      EdgePlaces(p, ex, el, x, el.edges[i]);
    }
    hide EdgeJac;
    FlatPlaces(el, NodeJac(p, el, x), el.nNodes);
    FlatPlaces(el, EdgeJac(p, ex, el, x), |el.edges|);
    SidePlaces(p, el, x);
  }

  // ---------------------------------------------------------------------------------------
  // The whole mesh

  ghost predicate SummedMatrix(m: Mesh, ex: ExpFun, x: seq<real>, e: nat, a: array2<real>)
    requires IsExp(ex) && Solvable(m, x)
    reads a
  {
    && a.Length0 == a.Length1 == m.size
    && forall g: nat, j: nat :: g < m.size && j < m.size ==> a[g, j] == Sum(EntryOf(m, ex, x, g, j), e)
  }

  lemma EntryLanded(m: Mesh, ex: ExpFun, x: seq<real>, e: nat, ke: seq<seq<real>>, g: nat, j: nat)
    requires IsExp(ex) && Solvable(m, x) && e < |m.elements|
    requires HoldsEntries(m.elements[e], ke, ElementJac(m.p, ex, m.elements[e], x))
    ensures Sum(EntryOf(m, ex, x, g, j), e + 1)
         == Sum(EntryOf(m, ex, x, g, j), e)
          + Sum2(Landing2(Joined(m.elements[e].dofs), ke, g, j), Total(m.elements[e].dofs))
  {
    var el := m.elements[e];
    ElementPlaces(m.p, ex, el, x);
    hide ElementJac;
    LandingComplete2(el, ke, ElementJac(m.p, ex, el, x), g, j);
  }

  lemma MatrixEntries(el: Element, ke: array2<real>, adds: seq<Add<Place>>)
    requires HoldsMatrix(el, ke, adds)
    ensures HoldsEntries(el, Entries(ke), adds)
  {}

  lemma MatrixLanded(m: Mesh, ex: ExpFun, x: seq<real>, e: nat, ke: array2<real>, g: nat, j: nat)
    requires IsExp(ex) && Solvable(m, x) && e < |m.elements|
    requires HoldsMatrix(m.elements[e], ke, ElementJac(m.p, ex, m.elements[e], x))
    ensures Sum(EntryOf(m, ex, x, g, j), e + 1)
         == Sum(EntryOf(m, ex, x, g, j), e)
          + Sum2(Landing2(Joined(m.elements[e].dofs), Entries(ke), g, j), Total(m.elements[e].dofs))
  {
    hide ElementJac, HoldsMatrix, HoldsEntries, Sum, Sum2, Landing2, EntryOf, Entries, Joined, Total;
    MatrixEntries(m.elements[e], ke, ElementJac(m.p, ex, m.elements[e], x));
    EntryLanded(m, ex, x, e, Entries(ke), g, j);
  }

  method AddElementMatrix(m: Mesh, ex: ExpFun, x: seq<real>, e: nat, a: array2<real>, d: map<nat, map<nat, real>>)
    returns (d': map<nat, map<nat, real>>)
    requires IsExp(ex) && Solvable(m, x) && e < |m.elements| && SummedMatrix(m, ex, x, e, a)
    requires RecordsMatrix(d, Flat(ImposedElement(m, x), e), Flat(DirichletElement(m, x), e), m.size)
    modifies a
    ensures SummedMatrix(m, ex, x, e + 1, a)
    ensures RecordsMatrix(d', Flat(ImposedElement(m, x), e + 1), Flat(DirichletElement(m, x), e + 1), m.size)
  {
    hide RecordsMatrix, ElementJac, HoldsMatrix, DirichletSides, ImposedSides, Joined, Total, EntryOf;
    var el := m.elements[e];
    var ke, idx;
    ke, idx, d' := AssembleElementMatrix(m.p, ex, el, x, d, Flat(ImposedElement(m, x), e),
      Flat(DirichletElement(m, x), e));
    hide Flat;
    NumbersBelow(el, m.size);
    label before:
    AddMatrix(a, ke, idx);
    forall g: nat, j: nat | g < m.size && j < m.size ensures a[g, j] == Sum(EntryOf(m, ex, x, g, j), e + 1) {
      assert old@before(a[g, j]) == Sum(EntryOf(m, ex, x, g, j), e);
      hide Sum, Sum2;
      MatrixLanded(m, ex, x, e, ke, g, j);
    }
  }

  /** The rows of imposed unknowns are zeroed and set. */
  method SetMatrixRows(a: array2<real>, rows: map<nat, map<nat, real>>)
    requires forall g: nat :: g in rows ==> g < a.Length0
    modifies a
    ensures forall g: nat, j: nat :: g < a.Length0 && j < a.Length1 ==>
              a[g, j] == if g in rows then Stored(rows, g, j) else old(a[g, j])
  {
    var rest := rows.Keys;
    while rest != {}
      invariant rest <= rows.Keys
      invariant forall g: nat, j: nat :: g < a.Length0 && j < a.Length1 ==>
                  a[g, j] == if g in rows && g !in rest then Stored(rows, g, j) else old(a[g, j])
      decreases |rest|
    {
      var g :| g in rest;
      assert g in rows;
      for j := 0 to a.Length1
        invariant forall c: nat :: c < a.Length1 ==>
                    a[g, c] == if c < j then Stored(rows, g, c) else old(a[g, c])
        invariant forall h: nat, c: nat :: h < a.Length0 && c < a.Length1 && h != g ==>
                    a[h, c] == if h in rows && h !in rest then Stored(rows, h, c) else old(a[h, c])
      {
        a[g, j] := 0.0;
        if j in rows[g] {
          a[g, j] := rows[g][j];
        }
      }
      rest := rest - {g};
    }
  }

  /** The Jacobian of the nonlinear system. */
  method AssembleJacobian(m: Mesh, ex: ExpFun, x: seq<real>) returns (a: array2<real>)
    requires IsExp(ex) && Solvable(m, x)
    ensures fresh(a) && a.Length0 == a.Length1 == m.size
    ensures forall g: nat, j: nat :: g < m.size && j < m.size ==> a[g, j] == Jacobian(m, ex, x, g, j)
  {
    hide RecordsMatrix, EntryOf, ImposedElement, DirichletElement;
    a := new real[m.size, m.size]((_, _) => 0.0);
    var dirichlet: map<nat, map<nat, real>> := map[];
    NothingRecorded(m.size);
    for e := 0 to |m.elements|
      invariant SummedMatrix(m, ex, x, e, a)
      invariant RecordsMatrix(dirichlet, Flat(ImposedElement(m, x), e), Flat(DirichletElement(m, x), e), m.size)
    {
      dirichlet := AddElementMatrix(m, ex, x, e, a, dirichlet);
    }
    RecordsKeys(dirichlet, ImposedJac(m, x), Imposed(m, x), m.size);
    hide Dot, Sum, Flat, Touches;
    SetMatrixRows(a, dirichlet);
  }

  lemma NothingRecorded(size: nat)
    ensures RecordsMatrix(map[], [], [], size)
  {}

  lemma RecordsKeys(d: map<nat, map<nat, real>>, pairs: PairAdds, imposed: seq<Add<nat>>, size: nat)
    requires RecordsMatrix(d, pairs, imposed, size)
    ensures forall g: nat :: g in d <==> Touches(imposed, g)
    ensures forall g: nat :: g in d ==> g < size
    ensures forall g: nat, j: nat :: g in d && j in d[g] ==> j < size
    ensures forall g: nat, j: nat :: Stored(d, g, j) == Dot(pairs, BothPair(Delta(g), Delta(j)))
  {}
}
