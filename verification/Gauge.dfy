/** Gauge invariance of the edge part: a common shift of all potentials drives no flux, and what
    leaves one box enters another. */
module Gauge {
  import opened Calculus
  import opened Exponential
  import opened EdgeFlux
  import opened Forms
  import opened BoxMesh
  import opened BoxSystem
  import opened BoxBalance
  import opened BoxJacobian
  import opened BoxDerivative
  import opened JacobianTheorem

  // ---------------------------------------------------------------------------------------
  // One element

  ghost predicate OneOn(el: Element, t: SlotTest) {
    forall s: Slot :: InRange(el, s) ==> t(s) == 1.0
  }

  /** Each block's rows carry a common weight. */
  ghost predicate ConstantOnBlocks(el: Element, w: SlotTest) {
    forall r: Slot, s: Slot :: InRange(el, r) && InRange(el, s) && r.block == s.block ==> w(r) == w(s)
  }

  lemma AcrossGauge(el: Element, e: Edge, k: nat, j: nat, a: real, b: real, w: SlotTest, t: SlotTest)
    requires WellFormed(el) && WellFormedEdge(el, e) && k < |el.dofs| && j < |el.dofs| && OneOn(el, t)
    ensures Dot(AcrossJac(el, e, k, j, a, b), Both(w, t)) == Jump(el, e, k, w) * (a + b)
  {
    DotAcrossJac(el, e, k, j, a, b, w, t);
    assert t(At(el, j, e.n1)) == 1.0 && t(At(el, j, e.n2)) == 1.0;
  }

  lemma CarrierRowSum(p: Params, ex: ExpFun, el: Element, x: seq<real>, e: Edge, k: nat, w: SlotTest, t: SlotTest)
    requires IsExp(ex) && p.Positive() && Fits(el, x) && WellFormedEdge(el, e) && k < |el.dofs| && OneOn(el, t)
    ensures Dot(CarrierJac(p, ex, el, x, e)(k), Both(w, t)) == 0.0
  {
    hide Row, Dot, OneOn, AcrossJac, EdgeState;
    if k == el.u {
      NoCarrierJac(p, ex, el, x, e);
      NothingTested(Both(w, t));
    } else {
      var r := FluxRow(p, ex, el, x, e, k);
      RowGauge(ex, p.scheme, EdgeState(p, el, x, e, k), SlopesAt(p, el, x, e, k));
      AcrossGauge(el, e, k, k, r.q1, r.q2, w, t);
      AcrossGauge(el, e, k, el.u, r.p1, r.p2, w, t);
      DotConcat(AcrossJac(el, e, k, k, r.q1, r.q2), AcrossJac(el, e, k, el.u, r.p1, r.p2), Both(w, t));
      Factor(Jump(el, e, k, w), r.q1 + r.q2, r.p1 + r.p2);
    }
  }

  lemma NothingTested(z: Place -> real)
    ensures Dot([], z) == 0.0
  {}

  lemma Factor(k: real, a: real, b: real)
    requires a + b == 0.0
    ensures k * a + k * b == 0.0
  {}

  lemma EdgeRowSum(p: Params, ex: ExpFun, el: Element, x: seq<real>, e: Edge, w: SlotTest, t: SlotTest)
    requires IsExp(ex) && p.Positive() && Fits(el, x) && WellFormedEdge(el, e) && OneOn(el, t)
    ensures Dot(OneEdgeJac(p, ex, el, x, e), Both(w, t)) == 0.0
  {
    hide Dot, OneOn, AcrossJac, CarrierJac, Flat, Sum, PoissonCoefficient;
    var c, z := PoissonCoefficient(p, el, e), Both(w, t);
    AcrossGauge(el, e, el.u, el.u, c, -c, w, t);
    DotConcat(AcrossJac(el, e, el.u, el.u, c, -c), Flat(CarrierJac(p, ex, el, x, e), |el.dofs|), z);
    DotFlat(CarrierJac(p, ex, el, x, e), |el.dofs|, z);
    forall k: nat | k < |el.dofs| ensures DotOf(CarrierJac(p, ex, el, x, e), z)(k) == 0.0 {
      CarrierRowSum(p, ex, el, x, e, k, w, t);
    }
    SumZero(DotOf(CarrierJac(p, ex, el, x, e), z), |el.dofs|);
  }

  /** Rows: applied to a common shift of all potentials the edge entries give nothing. */
  lemma ElementRowSum(p: Params, ex: ExpFun, el: Element, x: seq<real>, w: SlotTest, t: SlotTest)
    requires IsExp(ex) && p.Positive() && Fits(el, x) && OneOn(el, t)
    ensures Dot(Flat(EdgeJac(p, ex, el, x), |el.edges|), Both(w, t)) == 0.0
  {
    hide Dot, OneOn, OneEdgeJac, Flat, Sum;
    var z := Both(w, t);
    DotFlat(EdgeJac(p, ex, el, x), |el.edges|, z);
    forall i: nat | i < |el.edges| ensures DotOf(EdgeJac(p, ex, el, x), z)(i) == 0.0 {
      EdgeRowSum(p, ex, el, x, el.edges[i], w, t);
    }
    SumZero(DotOf(EdgeJac(p, ex, el, x), z), |el.edges|);
  }

  lemma AcrossBalance(el: Element, e: Edge, k: nat, j: nat, a: real, b: real, w: SlotTest, t: SlotTest)
    requires WellFormed(el) && WellFormedEdge(el, e) && k < |el.dofs| && j < |el.dofs| && ConstantOnBlocks(el, w)
    ensures Dot(AcrossJac(el, e, k, j, a, b), Both(w, t)) == 0.0
  {
    DotAcrossJac(el, e, k, j, a, b, w, t);
    assert w(At(el, k, e.n1)) == w(At(el, k, e.n2));
    assert Jump(el, e, k, w) == 0.0;
  }

  lemma EdgeColumnSum(p: Params, ex: ExpFun, el: Element, x: seq<real>, e: Edge, w: SlotTest, t: SlotTest)
    requires IsExp(ex) && p.Positive() && Fits(el, x) && WellFormedEdge(el, e) && ConstantOnBlocks(el, w)
    ensures Dot(OneEdgeJac(p, ex, el, x, e), Both(w, t)) == 0.0
  {
    hide Dot, ConstantOnBlocks, AcrossJac, FluxRow, Flat, Sum, PoissonCoefficient;
    var c, z, list := PoissonCoefficient(p, el, e), Both(w, t), CarrierJac(p, ex, el, x, e);
    AcrossBalance(el, e, el.u, el.u, c, -c, w, t);
    DotConcat(AcrossJac(el, e, el.u, el.u, c, -c), Flat(list, |el.dofs|), z);
    DotFlat(list, |el.dofs|, z);
    forall k: nat | k < |el.dofs| ensures DotOf(list, z)(k) == 0.0 {
      if k == el.u {
        NothingTested(z);
      } else {
        var r := FluxRow(p, ex, el, x, e, k);
        AcrossBalance(el, e, k, k, r.q1, r.q2, w, t);
        AcrossBalance(el, e, k, el.u, r.p1, r.p2, w, t);
        DotConcat(AcrossJac(el, e, k, k, r.q1, r.q2), AcrossJac(el, e, k, el.u, r.p1, r.p2), z);
      }
    }
    SumZero(DotOf(list, z), |el.dofs|);
  }

  /** Columns: summed over the rows of each variable the edge entries give nothing. */
  lemma ElementColumnSum(p: Params, ex: ExpFun, el: Element, x: seq<real>, w: SlotTest, t: SlotTest)
    requires IsExp(ex) && p.Positive() && Fits(el, x) && ConstantOnBlocks(el, w)
    ensures Dot(Flat(EdgeJac(p, ex, el, x), |el.edges|), Both(w, t)) == 0.0
  {
    hide Dot, ConstantOnBlocks, OneEdgeJac, Flat, Sum;
    var z := Both(w, t);
    DotFlat(EdgeJac(p, ex, el, x), |el.edges|, z);
    forall i: nat | i < |el.edges| ensures DotOf(EdgeJac(p, ex, el, x), z)(i) == 0.0 {
      EdgeColumnSum(p, ex, el, x, el.edges[i], w, t);
    }
    SumZero(DotOf(EdgeJac(p, ex, el, x), z), |el.edges|);
  }

  // ---------------------------------------------------------------------------------------
  // The mesh

  /** What element e's edges contribute to entry (g, j). */
  function EdgeEntryOf(m: Mesh, ex: ExpFun, x: seq<real>, g: nat, j: nat): nat -> real
    requires IsExp(ex) && Solvable(m, x)
  {
    (e: nat) => if e < |m.elements| then
        var el := m.elements[e];
        Dot(Flat(EdgeJac(m.p, ex, el, x), |el.edges|), Both(Test(el, Delta(g)), Test(el, Delta(j))))
      else 0.0
  }

  /** Entry (g, j) of the edge part of the Jacobian. */
  function EdgeEntry(m: Mesh, ex: ExpFun, x: seq<real>, g: nat, j: nat): real
    requires IsExp(ex) && Solvable(m, x)
  {
    Sum(EdgeEntryOf(m, ex, x, g, j), |m.elements|)
  }

  function Ones(n: nat): (r: seq<real>)
    ensures |r| == n && forall i :: 0 <= i < n ==> r[i] == 1.0
  {
    seq(n, i => 1.0)
  }

  /** Contributions of element e (first index) to the columns (second index) of row g. */
  function RowTable(m: Mesh, ex: ExpFun, x: seq<real>, g: nat): (nat, nat) -> real
    requires IsExp(ex) && Solvable(m, x)
  {
    (e: nat, j: nat) => EdgeEntryOf(m, ex, x, g, j)(e)
  }

  function RowEntries(m: Mesh, ex: ExpFun, x: seq<real>, g: nat): nat -> real
    requires IsExp(ex) && Solvable(m, x)
  {
    (j: nat) => EdgeEntry(m, ex, x, g, j)
  }

  lemma OnesAreOne(el: Element, size: nat)
    requires Covers(el, size)
    ensures OneOn(el, Test(el, Direction(Ones(size))))
  {}

  lemma ElementRowTotal(m: Mesh, ex: ExpFun, x: seq<real>, g: nat, e: nat)
    requires IsExp(ex) && Solvable(m, x) && e < |m.elements|
    ensures RowSums(RowTable(m, ex, x, g), m.size)(e) == 0.0
  {
    hide EdgeJac, Flat, Test, Dot;
    var el := m.elements[e];
    var jac, w, v := Flat(EdgeJac(m.p, ex, el, x), |el.edges|), Test(el, Delta(g)), Ones(m.size);
    ColumnsRecombine(el, jac, w, v);
    OnesAreOne(el, m.size);
    ElementRowSum(m.p, ex, el, x, w, Test(el, Direction(v)));
    forall j: nat | j < m.size ensures RowOf(RowTable(m, ex, x, g), e)(j) == ColumnTimes(el, jac, w, v)(j) {
      RowTableAt(m, ex, x, g, e, j);
      UnitColumn(el, jac, w, v, j);
    }
    SumEqual(RowOf(RowTable(m, ex, x, g), e), ColumnTimes(el, jac, w, v), m.size);
  }

  lemma UnitColumn(el: Element, jac: JacAdds, w: SlotTest, v: seq<real>, j: nat)
    requires j < |v|
    ensures v[j] == 1.0 ==> ColumnTimes(el, jac, w, v)(j) == Dot(jac, Both(w, Test(el, Delta(j))))
    ensures v[j] == 0.0 ==> ColumnTimes(el, jac, w, v)(j) == 0.0
  {}

  lemma RowTableAt(m: Mesh, ex: ExpFun, x: seq<real>, g: nat, e: nat, j: nat)
    requires IsExp(ex) && Solvable(m, x) && e < |m.elements|
    ensures EdgeEntryOf(m, ex, x, g, j)(e)
         == Dot(Flat(EdgeJac(m.p, ex, m.elements[e], x), |m.elements[e].edges|),
                Both(Test(m.elements[e], Delta(g)), Test(m.elements[e], Delta(j))))
  {}

  /** Every row of the edge part sums to zero over all columns. */
  lemma RowsSumToZero(m: Mesh, ex: ExpFun, x: seq<real>, g: nat)
    requires IsExp(ex) && Solvable(m, x)
    ensures Sum(RowEntries(m, ex, x, g), m.size) == 0.0
  {
    hide Sum, Valid, EdgeEntryOf;
    var t := RowTable(m, ex, x, g);
    forall e: nat | e < |m.elements| ensures RowSums(t, m.size)(e) == 0.0 {
      ElementRowTotal(m, ex, x, g, e);
    }
    SumZero(RowSums(t, m.size), |m.elements|);
    SwapSums(t, |m.elements|, m.size);
    forall j: nat | j < m.size ensures RowEntries(m, ex, x, g)(j) == ColumnSums(t, |m.elements|)(j) {
      SumEqual(EdgeEntryOf(m, ex, x, g, j), ColumnOf(t, j), |m.elements|);
    }
    SumEqual(RowEntries(m, ex, x, g), ColumnSums(t, |m.elements|), m.size);
  }

  // ---------------------------------------------------------------------------------------
  // Columns, through the transposed entries

  function Turned(c: Place): Place { Place(c.col, c.row) }

  function Transposed(jac: JacAdds): (r: JacAdds)
    ensures |r| == |jac| && forall i :: 0 <= i < |jac| ==> r[i] == Add(Turned(jac[i].at), jac[i].val)
  {
    seq(|jac|, i requires 0 <= i < |jac| => Add(Turned(jac[i].at), jac[i].val))
  }

  lemma {:induction false} TransposedTested(jac: JacAdds, w: SlotTest, t: SlotTest)
    ensures Dot(Transposed(jac), Both(t, w)) == Dot(jac, Both(w, t))
  {
    if jac != [] {
      var n := |jac| - 1;
      TransposedTested(jac[..n], w, t);
      assert Transposed(jac)[..n] == Transposed(jac[..n]);
    }
  }

  /** The unknowns of one variable. */
  function OfVariable(m: Mesh, v: nat): (r: seq<real>)
    ensures |r| == m.size && forall g :: 0 <= g < m.size ==> r[g] == if m.owner(g) == v then 1.0 else 0.0
  {
    seq(m.size, g requires 0 <= g => if m.owner(g) == v then 1.0 else 0.0)
  }

  /** Entries of column j in the rows of variable v. */
  function ColumnEntries(m: Mesh, ex: ExpFun, x: seq<real>, v: nat, j: nat): nat -> real
    requires IsExp(ex) && Solvable(m, x)
  {
    (g: nat) => if m.owner(g) == v then EdgeEntry(m, ex, x, g, j) else 0.0
  }

  function ColumnTable(m: Mesh, ex: ExpFun, x: seq<real>, v: nat, j: nat): (nat, nat) -> real
    requires IsExp(ex) && Solvable(m, x)
  {
    (e: nat, g: nat) => if m.owner(g) == v then EdgeEntryOf(m, ex, x, g, j)(e) else 0.0
  }

  lemma VariableIsConstant(m: Mesh, e: nat, v: nat)
    requires Valid(m) && e < |m.elements|
    ensures ConstantOnBlocks(m.elements[e], Test(m.elements[e], Direction(OfVariable(m, v))))
  {}

  lemma ElementColumnTotal(m: Mesh, ex: ExpFun, x: seq<real>, v: nat, j: nat, e: nat)
    requires IsExp(ex) && Solvable(m, x) && e < |m.elements|
    ensures RowSums(ColumnTable(m, ex, x, v, j), m.size)(e) == 0.0
  {
    hide EdgeJac, Flat, Test, Dot, ConstantOnBlocks, Numbered;
    var el := m.elements[e];
    var jac, z, c := Flat(EdgeJac(m.p, ex, el, x), |el.edges|), Test(el, Delta(j)), OfVariable(m, v);
    var back := Transposed(jac);
    ColumnsRecombine(el, back, z, c);
    VariableIsConstant(m, e, v);
    ElementColumnSum(m.p, ex, el, x, Test(el, Direction(c)), z);
    TransposedTested(jac, Test(el, Direction(c)), z);
    forall g: nat | g < m.size ensures RowOf(ColumnTable(m, ex, x, v, j), e)(g) == ColumnTimes(el, back, z, c)(g) {
      TransposedTested(jac, Test(el, Delta(g)), z);
      UnitColumn(el, back, z, c, g);
      RowTableAt(m, ex, x, g, e, j);
    }
    SumEqual(RowOf(ColumnTable(m, ex, x, v, j), e), ColumnTimes(el, back, z, c), m.size);
  }

  /** In every column the rows of each variable sum to zero. */
  lemma ColumnsSumToZero(m: Mesh, ex: ExpFun, x: seq<real>, v: nat, j: nat)
    requires IsExp(ex) && Solvable(m, x)
    ensures Sum(ColumnEntries(m, ex, x, v, j), m.size) == 0.0
  {
    hide Sum, Valid, EdgeEntryOf;
    var t := ColumnTable(m, ex, x, v, j);
    forall e: nat | e < |m.elements| ensures RowSums(t, m.size)(e) == 0.0 {
      ElementColumnTotal(m, ex, x, v, j, e);
    }
    SumZero(RowSums(t, m.size), |m.elements|);
    SwapSums(t, |m.elements|, m.size);
    forall g: nat | g < m.size ensures ColumnEntries(m, ex, x, v, j)(g) == ColumnSums(t, |m.elements|)(g) {
      if m.owner(g) == v {
        SumEqual(EdgeEntryOf(m, ex, x, g, j), ColumnOf(t, g), |m.elements|);
      } else {
        SumZero(ColumnOf(t, g), |m.elements|);
      }
    }
    SumEqual(ColumnEntries(m, ex, x, v, j), ColumnSums(t, |m.elements|), m.size);
  }

  // ---------------------------------------------------------------------------------------
  // The residual itself

  function Shifted(x: seq<real>, c: real): (r: seq<real>)
    ensures |r| == |x| && forall i :: 0 <= i < |x| ==> r[i] == x[i] + c
  {
    seq(|x|, i requires 0 <= i < |x| => x[i] + c)
  }

  /** The conductivities do not notice a common shift of all potentials. */
  ghost predicate SameConductivities(p: Params, el: Element, x: seq<real>, y: seq<real>)
    requires Fits(el, x) && Fits(el, y)
  {
    forall n: nat, k: nat :: n < el.nNodes && k < |el.dofs| ==>
      Local(p, el, x, n).sigma(k) == Local(p, el, y, n).sigma(k)
  }

  lemma FluxUnmoved(ex: ExpFun, scheme: Scheme, s: Edge1, r: Edge1, c: real)
    requires IsExp(ex) && s.Geometric()
    requires r == s.(p1 := s.p1 + c, p2 := s.p2 + c, q1 := s.q1 + c, q2 := s.q2 + c)
    ensures Flux(ex, scheme, s) == Flux(ex, scheme, r)
  {}

  /** Shifting all potentials by the same amount leaves every edge flux as it is. */
  lemma EdgeFluxesUnmoved(p: Params, ex: ExpFun, el: Element, x: seq<real>, c: real)
    requires IsExp(ex) && p.Positive() && Fits(el, x) && SameConductivities(p, el, x, Shifted(x, c))
    ensures Flat(EdgeAdds(p, ex, el, Shifted(x, c)), |el.edges|) == Flat(EdgeAdds(p, ex, el, x), |el.edges|)
  {
    var y := Shifted(x, c);
    forall i: nat | i < |el.edges| ensures EdgeAdds(p, ex, el, y)(i) == EdgeAdds(p, ex, el, x)(i) {
      OneEdgeUnmoved(p, ex, el, x, c, el.edges[i]);
    }
    hide EdgeAdds;
    FlatEqual(EdgeAdds(p, ex, el, y), EdgeAdds(p, ex, el, x), |el.edges|);
  }

  lemma {:induction false} FlatEqual<A(!new)>(f: nat -> seq<A>, g: nat -> seq<A>, n: nat)
    requires forall i: nat :: i < n ==> f(i) == g(i)
    ensures Flat(f, n) == Flat(g, n)
  {
    if n > 0 { FlatEqual(f, g, n - 1); }
  }

  lemma PoissonUnmoved(p: Params, el: Element, x: seq<real>, c: real, e: Edge)
    requires p.Positive() && Fits(el, x) && WellFormedEdge(el, e)
    ensures PoissonFlux(p, el, Shifted(x, c), e) == PoissonFlux(p, el, x, e)
  {}

  lemma OneEdgeUnmoved(p: Params, ex: ExpFun, el: Element, x: seq<real>, c: real, e: Edge)
    requires IsExp(ex) && p.Positive() && Fits(el, x) && SameConductivities(p, el, x, Shifted(x, c))
    requires WellFormedEdge(el, e)
    ensures OneEdge(p, ex, el, Shifted(x, c), e) == OneEdge(p, ex, el, x, e)
  {
    hide Flux, PoissonFlux, Across, Local, Flat;
    var y := Shifted(x, c);
    PoissonUnmoved(p, el, x, c, e);
    forall k: nat | k < |el.dofs| ensures CarrierBlock(p, ex, el, y, e)(k) == CarrierBlock(p, ex, el, x, e)(k) {
      assert EdgeState(p, el, x, e, k).Geometric();
      FluxUnmoved(ex, p.scheme, EdgeState(p, el, x, e, k), EdgeState(p, el, y, e, k), c);
    }
    hide CarrierBlock;
    FlatEqual(CarrierBlock(p, ex, el, y, e), CarrierBlock(p, ex, el, x, e), |el.dofs|);
  }
}
