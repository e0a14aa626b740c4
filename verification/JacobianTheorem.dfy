/** Every row of the assembled residual is differentiable, and its derivative in any direction
    is the assembled Jacobian row applied to that direction. */
module JacobianTheorem {
  import opened Calculus
  import opened Exponential
  import opened EdgeFlux
  import opened Forms
  import opened BoxMesh
  import opened BoxSystem
  import opened BoxBalance
  import opened BoxJacobian
  import opened BoxDerivative

  /** A direction as a test function on the unknowns. */
  function Direction(v: seq<real>): nat -> real {
    (d: nat) => if d < |v| then v[d] else 0.0
  }

  ghost function RowTimes(m: Mesh, ex: ExpFun, x: seq<real>, g: nat, v: seq<real>): nat -> real
    requires IsExp(ex) && Solvable(m, x) && |v| == |x|
  {
    (j: nat) => if j < |v| then Jacobian(m, ex, x, g, j) * v[j] else 0.0
  }

  /** Row g of the residual along x + h*v. */
  ghost function RowAlong(m: Mesh, ex: ExpFun, x: seq<real>, v: seq<real>, g: nat): Curve
    requires IsExp(ex) && Solvable(m, x) && |v| == |x|
  {
    (h: Arg) => Residual(m, ex, Shift(x, h, v), g)
  }

  ghost predicate ModelsCorrect(m: Mesh, x: seq<real>, v: seq<real>)
    requires Solvable(m, x) && |v| == |x|
  {
    forall e :: 0 <= e < |m.elements| ==> ElementModelsCorrect(m.p, m.elements[e], x, v)
  }

  ghost predicate OffThresholds(m: Mesh, x: seq<real>)
    requires Solvable(m, x)
  {
    forall e :: 0 <= e < |m.elements| ==> ElementOffThresholds(m.p, m.elements[e], x)
  }

  // ---------------------------------------------------------------------------------------
  // Assembled rows

  lemma DirectionCarries(m: Mesh, e: nat, v: seq<real>)
    requires Valid(m) && e < |m.elements| && |v| == m.size
    ensures Carries(m.elements[e], v, Test(m.elements[e], Direction(v)))
  {}

  function ElementCurves(m: Mesh, ex: ExpFun, x: seq<real>, v: seq<real>, w: nat -> real): nat -> Curve
    requires IsExp(ex) && Solvable(m, x) && |v| == |x|
  {
    (e: nat) => ((h: Arg) => ElementForm(m, ex, Shift(x, h, v), w)(e))
  }

  function ElementMoves(m: Mesh, ex: ExpFun, x: seq<real>, v: seq<real>, w: nat -> real): nat -> real
    requires IsExp(ex) && Solvable(m, x) && |v| == |x|
  {
    (e: nat) => if e < |m.elements| then
        var el := m.elements[e];
        Dot(ElementJac(m.p, ex, el, x), Both(Test(el, w), Test(el, Direction(v))))
      else 0.0
  }

  lemma DerivElementForm(m: Mesh, ex: ExpFun, x: seq<real>, v: seq<real>, w: nat -> real, e: nat)
    requires IsExp(ex) && Solvable(m, x) && |v| == |x| && ModelsCorrect(m, x, v) && OffThresholds(m, x)
    requires e < |m.elements|
    ensures HasDeriv(ElementCurves(m, ex, x, v, w)(e), ElementMoves(m, ex, x, v, w)(e))
  {
    hide HasDeriv, ElementAdds, ElementJac, Test, Dot, ElementModelsCorrect, ElementOffThresholds, Carries;
    var el := m.elements[e];
    DirectionCarries(m, e, v);
    MatchElement(m.p, ex, el, x, v, Test(el, w), Test(el, Direction(v)));
    var f, g := DotCurve(ElementAlong(m.p, ex, el, x, v), Test(el, w)), ElementCurves(m, ex, x, v, w)(e);
    forall h: Arg ensures g(h) == f(h) {
      assert ElementForm(m, ex, Shift(x, h, v), w)(e) == Dot(ElementAdds(m.p, ex, el, Shift(x, h, v)), Test(el, w));
    }
    DerivSame(f, g, ElementMoves(m, ex, x, v, w)(e));
  }

  /** The assembled residual tested with w, along x + h*v. */
  function FormAlong(m: Mesh, ex: ExpFun, x: seq<real>, v: seq<real>, w: nat -> real): (f: Curve)
    requires IsExp(ex) && Solvable(m, x) && |v| == |x|
    ensures forall h: Arg {:trigger f(h)} :: f(h) == Dot(Contributions(m, ex, Shift(x, h, v)), w)
  {
    (h: Arg) => Dot(Contributions(m, ex, Shift(x, h, v)), w)
  }

  /** Derivative of the weak form, for any test function. */
  lemma DerivForm(m: Mesh, ex: ExpFun, x: seq<real>, v: seq<real>, w: nat -> real)
    requires IsExp(ex) && Solvable(m, x) && |v| == |x| && ModelsCorrect(m, x, v) && OffThresholds(m, x)
    ensures HasDeriv(FormAlong(m, ex, x, v, w), Sum(ElementMoves(m, ex, x, v, w), |m.elements|))
  {
    hide HasDeriv, Contributions, ModelsCorrect, OffThresholds, ElementMoves, ElementForm, Sum, Dot, Valid;
    var f := ElementCurves(m, ex, x, v, w);
    forall e: nat | e < |m.elements| ensures HasDeriv(f(e), ElementMoves(m, ex, x, v, w)(e)) {
      DerivElementForm(m, ex, x, v, w, e);
    }
    var total := FormAlong(m, ex, x, v, w);
    forall h: Arg ensures total(h) == Sum(ValuesAt(f, h), |m.elements|) {
      var y := Shift(x, h, v);
      ContributionsTested(m, ex, y, w);
      SumEqual(ElementForm(m, ex, y, w), ValuesAt(f, h), |m.elements|);
    }
    DerivSumOf(f, ElementMoves(m, ex, x, v, w), |m.elements|, total);
  }

  // ---------------------------------------------------------------------------------------
  // From columns to directions

  /** Column j of an element, times v(j). */
  function ColumnTimes(el: Element, jac: JacAdds, w: SlotTest, v: seq<real>): nat -> real {
    (j: nat) => if j < |v| then Dot(jac, Both(w, Test(el, Delta(j)))) * v[j] else 0.0
  }

  lemma {:induction false} ColumnsRecombine(el: Element, jac: JacAdds, w: SlotTest, v: seq<real>)
    requires Covers(el, |v|)
    ensures Sum(ColumnTimes(el, jac, w, v), |v|) == Dot(jac, Both(w, Test(el, Direction(v))))
  {
    if jac == [] {
      NothingRecombines(el, w, v);
    } else {
      var n := |jac| - 1;
      ColumnsRecombine(el, jac[..n], w, v);
      assert jac == jac[..n] + [jac[n]];
      ColumnAppend(el, jac[..n], jac[n], w, v);
    }
  }

  lemma NothingRecombines(el: Element, w: SlotTest, v: seq<real>)
    ensures Sum(ColumnTimes(el, [], w, v), |v|) == 0.0
    ensures Dot([], Both(w, Test(el, Direction(v)))) == 0.0
  {
    forall j: nat | j < |v| ensures ColumnTimes(el, [], w, v)(j) == 0.0 {
      assert Dot([], Both(w, Test(el, Delta(j)))) == 0.0;
    }
    SumZero(ColumnTimes(el, [], w, v), |v|);
  }

  function OneColumnTimes(el: Element, a: Add<Place>, w: SlotTest, v: seq<real>): nat -> real {
    (j: nat) => if j < |v| then (w(a.at.row) * a.val) * (Test(el, Delta(j))(a.at.col) * v[j]) else 0.0
  }

  lemma ColumnAppend(el: Element, jac: JacAdds, a: Add<Place>, w: SlotTest, v: seq<real>)
    requires Covers(el, |v|)
    ensures Sum(ColumnTimes(el, jac + [a], w, v), |v|)
         == Sum(ColumnTimes(el, jac, w, v), |v|) + w(a.at.row) * Test(el, Direction(v))(a.at.col) * a.val
    ensures Dot(jac + [a], Both(w, Test(el, Direction(v))))
         == Dot(jac, Both(w, Test(el, Direction(v)))) + w(a.at.row) * Test(el, Direction(v))(a.at.col) * a.val
  {
    hide Dot, Sum, Test;
    DotAppend(jac, a, Both(w, Test(el, Direction(v))));
    var one := OneColumnTimes(el, a, w, v);
    forall j: nat | j < |v| ensures ColumnTimes(el, jac + [a], w, v)(j) == ColumnTimes(el, jac, w, v)(j) + one(j) {
      DotAppend(jac, a, Both(w, Test(el, Delta(j))));
      ColumnStep(Dot(jac, Both(w, Test(el, Delta(j)))), w(a.at.row), Test(el, Delta(j))(a.at.col), a.val, v[j]);
    }
    SumPlus(ColumnTimes(el, jac, w, v), one, ColumnTimes(el, jac + [a], w, v), |v|);
    OneColumn(el, a, w, v);
  }

  lemma ColumnStep(d: real, w: real, t: real, val: real, vj: real)
    ensures (d + (w * t) * val) * vj == d * vj + (w * val) * (t * vj)
  {}

  lemma OneColumn(el: Element, a: Add<Place>, w: SlotTest, v: seq<real>)
    requires Covers(el, |v|)
    ensures Sum(OneColumnTimes(el, a, w, v), |v|) == w(a.at.row) * Test(el, Direction(v))(a.at.col) * a.val
  {
    hide Sum;
    var f, s, c := OneColumnTimes(el, a, w, v), a.at.col, w(a.at.row) * a.val;
    if s.block < |el.dofs| && s.id < |el.dofs[s.block]| {
      var d := el.dofs[s.block][s.id];
      assert d < |v|;
      forall j: nat | j < |v| ensures f(j) == if j == d then c * (1.0 * v[j]) else 0.0 {
        assert Test(el, Delta(j))(s) == if d == j then 1.0 else 0.0;
        if d != j { assert c * (0.0 * v[j]) == 0.0; }
      }
      SumSingle(f, d, |v|);
    } else {
      forall j: nat | j < |v| ensures f(j) == 0.0 {
        assert Test(el, Delta(j))(s) == 0.0;
        assert c * (0.0 * v[j]) == 0.0;
      }
      SumZero(f, |v|);
      assert Test(el, Direction(v))(s) == 0.0;
    }
  }

  /** Sums over elements and over columns can be exchanged. */
  function EntriesTimes(m: Mesh, ex: ExpFun, x: seq<real>, g: nat, v: seq<real>, n: nat): nat -> real
    requires IsExp(ex) && Solvable(m, x)
  {
    (j: nat) => if j < |v| then Sum(EntryOf(m, ex, x, g, j), n) * v[j] else 0.0
  }

  lemma {:induction false} ExchangeSums(m: Mesh, ex: ExpFun, x: seq<real>, v: seq<real>, g: nat, n: nat)
    requires IsExp(ex) && Solvable(m, x) && |v| == |x| && n <= |m.elements|
    ensures Sum(EntriesTimes(m, ex, x, g, v, n), |v|) == Sum(ElementMoves(m, ex, x, v, Delta(g)), n)
  {
    hide Dot, ElementJac, Test, Valid, Sum;
    var f := EntriesTimes(m, ex, x, g, v, n);
    if n == 0 {
      NoElements(m, ex, x, v, g);
    } else {
      ExchangeSums(m, ex, x, v, g, n - 1);
      ElementColumns(m, ex, x, v, g, n - 1);
      var col := ElementColumn(m, ex, x, v, g, n - 1);
      forall j: nat | j < |v| ensures f(j) == EntriesTimes(m, ex, x, g, v, n - 1)(j) + col(j) {
        LastElement(m, ex, x, v, g, n, j);
      }
      SumPlus(EntriesTimes(m, ex, x, g, v, n - 1), col, f, |v|);
      SumLast(ElementMoves(m, ex, x, v, Delta(g)), n);
    }
  }

  lemma SumLast(f: nat -> real, n: nat)
    requires n > 0
    ensures Sum(f, n) == Sum(f, n - 1) + f(n - 1)
  {}

  lemma NoElements(m: Mesh, ex: ExpFun, x: seq<real>, v: seq<real>, g: nat)
    requires IsExp(ex) && Solvable(m, x) && |v| == |x|
    ensures Sum(EntriesTimes(m, ex, x, g, v, 0), |v|) == 0.0 == Sum(ElementMoves(m, ex, x, v, Delta(g)), 0)
  {
    SumZero(EntriesTimes(m, ex, x, g, v, 0), |v|);
  }

  function ElementColumn(m: Mesh, ex: ExpFun, x: seq<real>, v: seq<real>, g: nat, e: nat): nat -> real
    requires IsExp(ex) && Solvable(m, x) && |v| == |x| && e < |m.elements|
  {
    ColumnTimes(m.elements[e], ElementJac(m.p, ex, m.elements[e], x), Test(m.elements[e], Delta(g)), v)
  }

  lemma ElementColumns(m: Mesh, ex: ExpFun, x: seq<real>, v: seq<real>, g: nat, e: nat)
    requires IsExp(ex) && Solvable(m, x) && |v| == |x| && e < |m.elements|
    ensures Sum(ElementColumn(m, ex, x, v, g, e), |v|) == ElementMoves(m, ex, x, v, Delta(g))(e)
  {
    hide ElementJac, Test, Dot, Sum, WellFormed, Numbered, ColumnTimes;
    ColumnsRecombine(m.elements[e], ElementJac(m.p, ex, m.elements[e], x), Test(m.elements[e], Delta(g)), v);
  }

  lemma LastElement(m: Mesh, ex: ExpFun, x: seq<real>, v: seq<real>, g: nat, n: nat, j: nat)
    requires IsExp(ex) && Solvable(m, x) && |v| == |x| && 0 < n <= |m.elements| && j < |v|
    ensures EntriesTimes(m, ex, x, g, v, n)(j) == EntriesTimes(m, ex, x, g, v, n - 1)(j)
      + ElementColumn(m, ex, x, v, g, n - 1)(j)
  {
    hide ElementJac, Test, Dot, Sum, WellFormed, Numbered;
    SumLast(EntryOf(m, ex, x, g, j), n);
    var el := m.elements[n - 1];
    WeightsTwo(Sum(EntryOf(m, ex, x, g, j), n - 1),
               Dot(ElementJac(m.p, ex, el, x), Both(Test(el, Delta(g)), Test(el, Delta(j)))), v[j]);
  }

  lemma WeightsTwo(a: real, b: real, f: real)
    ensures (a + b) * f == a * f + b * f
  {}

  // ---------------------------------------------------------------------------------------
  // Imposed rows

  lemma TouchesFlat(f: nat -> seq<Add<nat>>, n: nat, g: nat)
    ensures Touches(Flat(f, n), g) <==> exists i: nat :: i < n && Touches(f(i), g)
  {
    if n > 0 {
      TouchesFlat(f, n - 1, g);
      TouchesConcat(Flat(f, n - 1), f(n - 1), g);
    }
  }

  lemma TouchesConcat(a: seq<Add<nat>>, b: seq<Add<nat>>, g: nat)
    ensures Touches(a + b, g) <==> Touches(a, g) || Touches(b, g)
  {
    if Touches(a, g) {
      var i :| 0 <= i < |a| && a[i].at == g;
      assert (a + b)[i].at == g;
    }
    if Touches(b, g) {
      var i :| 0 <= i < |b| && b[i].at == g;
      assert (a + b)[|a| + i].at == g;
    }
  }

  lemma TouchesSame(f: nat -> seq<Add<nat>>, f': nat -> seq<Add<nat>>, n: nat, g: nat)
    requires forall i: nat :: i < n ==> (Touches(f(i), g) <==> Touches(f'(i), g))
    ensures Touches(Flat(f, n), g) <==> Touches(Flat(f', n), g)
  {
    TouchesFlat(f, n, g);
    TouchesFlat(f', n, g);
  }

  function ImposedBlocksAlong(p: Params, el: Element, x: seq<real>, v: seq<real>, s: Side,
                              i: nat): Arg -> (nat -> seq<Add<nat>>)
    requires p.Positive() && Fits(el, x) && |v| == |x| && WellFormedSide(el, s) && s.Modelled? && i < |s.nodes|
  {
    (h: Arg) => DirichletBlock(p, el, Shift(x, h, v), s, i)
  }

  function ImposedPointsAlong(p: Params, el: Element, x: seq<real>, v: seq<real>,
                              s: Side): Arg -> (nat -> seq<Add<nat>>)
    requires p.Positive() && Fits(el, x) && |v| == |x| && WellFormedSide(el, s)
  {
    (h: Arg) => DirichletPoint(p, el, Shift(x, h, v), s)
  }

  function ImposedSidesAlong(p: Params, el: Element, x: seq<real>, v: seq<real>): Arg -> (nat -> seq<Add<nat>>)
    requires p.Positive() && Fits(el, x) && |v| == |x|
  {
    (h: Arg) => DirichletSides(p, el, Shift(x, h, v))
  }

  function ImposedElementsAlong(m: Mesh, x: seq<real>, v: seq<real>): Arg -> (nat -> seq<Add<nat>>)
    requires Solvable(m, x) && |v| == |x|
  {
    (h: Arg) => DirichletElement(m, Shift(x, h, v))
  }

  /** Which rows are imposed does not change along the curve. */
  ghost predicate SameRows(f: Arg -> seq<Add<nat>>, g: nat) {
    forall h: Arg :: Touches(f(h), g) <==> Touches(f(0.0), g)
  }

  lemma SameRowsFlat(f: Arg -> (nat -> seq<Add<nat>>), n: nat, g: nat)
    requires forall i: nat :: i < n ==> SameRows(Piece(f, i), g)
    ensures SameRows(Joined(f, n), g)
  {
    hide Touches;
    forall h: Arg ensures Touches(Joined(f, n)(h), g) <==> Touches(Joined(f, n)(0.0), g) {
      forall i: nat | i < n ensures Touches(f(h)(i), g) <==> Touches(f(0.0)(i), g) {
        assert SameRows(Piece(f, i), g);
        assert Touches(Piece(f, i)(h), g) <==> Touches(Piece(f, i)(0.0), g);
      }
      TouchesSame(f(h), f(0.0), n, g);
    }
  }

  lemma SameRowsSame(f: Arg -> seq<Add<nat>>, f': Arg -> seq<Add<nat>>, g: nat)
    requires SameRows(f, g) && forall h: Arg {:trigger f'(h)} :: f'(h) == f(h)
    ensures SameRows(f', g)
  {}

  lemma ImposedEntryTested(p: Params, el: Element, x: seq<real>, v: seq<real>, s: Side, i: nat, k: nat,
                           w: nat -> real, j: nat)
    requires p.Positive() && Fits(el, x) && |v| == |x| && WellFormedSide(el, s) && s.Modelled? && i < |s.nodes|
    requires k < |el.dofs| && j < |el.dofs|
    ensures DotOf(ImposedRow(p, el, x, s, i, k), BothPair(w, Direction(v)))(j)
         == (w(Dof(el, k, s.nodes[i])) * -(1.0 / p.phi0)) * BoundaryMove(p, el, x, v, s, i, k)(j)
  {
    hide BoundaryRows, Dot, Covers;
    DotSingle(ImposedEntry(p, el, x, s, i, k, j), BothPair(w, Direction(v)));
    DirectionAt(el, v, j, s.nodes[i]);
    ImposedTerm(w(Dof(el, k, s.nodes[i])), Move(el, v, j, s.nodes[i]), p.phi0, BoundaryRows(p, el, x, s, i)(k).jac(j));
  }

  lemma ImposedRowTested(p: Params, el: Element, x: seq<real>, v: seq<real>, s: Side, i: nat, k: nat, w: nat -> real)
    requires p.Positive() && Fits(el, x) && |v| == |x| && WellFormedSide(el, s) && s.Modelled? && i < |s.nodes|
    requires k < |el.dofs|
    ensures Dot(Flat(ImposedRow(p, el, x, s, i, k), |el.dofs|), BothPair(w, Direction(v)))
         == (w(Dof(el, k, s.nodes[i])) * -(1.0 / p.phi0)) * Sum(BoundaryMove(p, el, x, v, s, i, k), |el.dofs|)
  {
    hide ImposedRow, BoundaryMove, Dot, Flat, Sum, BothPair, DotOf;
    var f, g, z := ImposedRow(p, el, x, s, i, k), BoundaryMove(p, el, x, v, s, i, k), BothPair(w, Direction(v));
    var factor := w(Dof(el, k, s.nodes[i])) * -(1.0 / p.phi0);
    forall j: nat | j < |el.dofs| ensures DotOf(f, z)(j) == factor * g(j) {
      ImposedEntryTested(p, el, x, v, s, i, k, w, j);
    }
    DotFlat(f, |el.dofs|, z);
    SumScale(g, factor, DotOf(f, z), |el.dofs|);
  }

  lemma DirectionAt(el: Element, v: seq<real>, k: nat, n: nat)
    requires Fits(el, v) && k < |el.dofs| && n < el.nNodes
    ensures Direction(v)(Dof(el, k, n)) == Move(el, v, k, n)
  {}

  lemma ImposedTerm(w: real, t: real, phi0: real, j: real)
    requires phi0 > 0.0
    ensures (w * t) * -j == (w * -(1.0 / phi0)) * (phi0 * j * t)
  {}

  lemma MatchImposedBlock(p: Params, el: Element, x: seq<real>, v: seq<real>, s: Side, i: nat, k: nat, w: nat -> real)
    requires p.Positive() && Fits(el, x) && |v| == |x| && WellFormedSide(el, s) && s.Modelled? && i < |s.nodes|
    requires k < |el.dofs|
    requires BoundaryModelCorrect(p, el, x, v, s, i, k)
    ensures Tracks(Piece(ImposedBlocksAlong(p, el, x, v, s, i), k), ImposedBlock(p, el, x, s, i)(k), w,
      BothPair(w, Direction(v)))
    ensures forall g: nat :: SameRows(Piece(ImposedBlocksAlong(p, el, x, v, s, i), k), g)
  {
    hide HasDeriv, BoundaryValue, Dot, Flat, ImposedRow, BoundaryMove, Sum, Dof, Covers;
    var f := Piece(ImposedBlocksAlong(p, el, x, v, s, i), k);
    forall h: Arg
      ensures BoundaryRows(p, el, Shift(x, h, v), s, i)(k).dirichlet == BoundaryRows(p, el, x, s, i)(k).dirichlet
    {
      assert ImposedAlong(p, el, x, v, s, i, k, h) == BoundaryRows(p, el, x, s, i)(k).dirichlet;
    }
    hide BoundaryRows;
    if !BoundaryRows(p, el, x, s, i)(k).dirichlet {
      TrackConstant(f, w, BothPair(w, Direction(v)));
    } else {
      var value, d := BoundaryAlong(p, el, x, v, s, i, k), Sum(BoundaryMove(p, el, x, v, s, i, k), |el.dofs|);
      var at := Dof(el, k, s.nodes[i]);
      var factor := w(at) * -(1.0 / p.phi0);
      forall h: Arg ensures DotCurve(f, w)(h) == factor * value(h) {
        DotOneNat(DirichletAdd(p, el, Shift(x, h, v), s, i, k), w);
        ScaledQuotient(w(at), value(h), p.phi0);
      }
      ImposedRowTested(p, el, x, v, s, i, k, w);
      DerivScale(value, d, factor, DotCurve(f, w), Dot(ImposedBlock(p, el, x, s, i)(k), BothPair(w, Direction(v))));
      forall g: nat, h: Arg ensures Touches(f(h), g) <==> g == at {
        assert f(h)[0].at == at;
      }
    }
  }

  lemma DotOneNat(a: Add<nat>, w: nat -> real)
    ensures Dot([a], w) == w(a.at) * a.val
  {}

  lemma ScaledQuotient(w: real, b: real, s: real)
    requires s > 0.0
    ensures w * -(b / s) == (w * -(1.0 / s)) * b
  {}

  lemma MatchImposedPoint(p: Params, el: Element, x: seq<real>, v: seq<real>, s: Side, i: nat, w: nat -> real, g: nat)
    requires p.Positive() && Fits(el, x) && |v| == |x| && WellFormedSide(el, s) && i < |s.nodes|
    requires s.Modelled? ==> forall k: nat :: k < |el.dofs| ==> BoundaryModelCorrect(p, el, x, v, s, i, k)
    ensures Tracks(Piece(ImposedPointsAlong(p, el, x, v, s), i), ImposedPoint(p, el, x, s)(i), w,
      BothPair(w, Direction(v)))
    ensures SameRows(Piece(ImposedPointsAlong(p, el, x, v, s), i), g)
  {
    hide Tracks, BoundaryModelCorrect, DirichletBlock, ImposedBlock, Flat, SameRows;
    var f, z := Piece(ImposedPointsAlong(p, el, x, v, s), i), BothPair(w, Direction(v));
    if s.Modelled? {
      var blocks := ImposedBlocksAlong(p, el, x, v, s, i);
      forall k: nat | k < |el.dofs|
        ensures Tracks(Piece(blocks, k), ImposedBlock(p, el, x, s, i)(k), w, z) && SameRows(Piece(blocks, k), g)
      {
        MatchImposedBlock(p, el, x, v, s, i, k, w);
      }
      TrackFlat(blocks, ImposedBlock(p, el, x, s, i), |el.dofs|, w, z);
      TrackSame(Joined(blocks, |el.dofs|), f, Flat(ImposedBlock(p, el, x, s, i), |el.dofs|), w, z);
      SameRowsFlat(blocks, |el.dofs|, g);
      SameRowsSame(Joined(blocks, |el.dofs|), f, g);
    } else {
      TrackConstant(f, w, z);
      NeverTouched(f, g);
    }
  }

  lemma NeverTouched(f: Arg -> seq<Add<nat>>, g: nat)
    requires forall h: Arg {:trigger f(h)} :: f(h) == []
    ensures SameRows(f, g)
  {}

  lemma MatchImposedSide(p: Params, el: Element, x: seq<real>, v: seq<real>, j: nat, w: nat -> real, g: nat)
    requires p.Positive() && Fits(el, x) && |v| == |x| && j < |el.sides| && ElementModelsCorrect(p, el, x, v)
    ensures Tracks(Piece(ImposedSidesAlong(p, el, x, v), j), ImposedSides(p, el, x)(j), w, BothPair(w, Direction(v)))
    ensures SameRows(Piece(ImposedSidesAlong(p, el, x, v), j), g)
  {
    hide Tracks, BoundaryModelCorrect, NodeModelCorrect, DirichletPoint, ImposedPoint, Flat, SameRows;
    var s := el.sides[j];
    var f, z := Piece(ImposedSidesAlong(p, el, x, v), j), BothPair(w, Direction(v));
    var points := ImposedPointsAlong(p, el, x, v, s);
    forall i: nat | i < |s.nodes|
      ensures Tracks(Piece(points, i), ImposedPoint(p, el, x, s)(i), w, z) && SameRows(Piece(points, i), g)
    {
      MatchImposedPoint(p, el, x, v, s, i, w, g);
    }
    TrackFlat(points, ImposedPoint(p, el, x, s), |s.nodes|, w, z);
    TrackSame(Joined(points, |s.nodes|), f, Flat(ImposedPoint(p, el, x, s), |s.nodes|), w, z);
    SameRowsFlat(points, |s.nodes|, g);
    SameRowsSame(Joined(points, |s.nodes|), f, g);
  }

  lemma MatchImposedElement(m: Mesh, x: seq<real>, v: seq<real>, e: nat, w: nat -> real, g: nat)
    requires Solvable(m, x) && |v| == |x| && e < |m.elements| && ModelsCorrect(m, x, v)
    ensures Tracks(Piece(ImposedElementsAlong(m, x, v), e), ImposedElement(m, x)(e), w, BothPair(w, Direction(v)))
    ensures SameRows(Piece(ImposedElementsAlong(m, x, v), e), g)
  {
    hide Tracks, DirichletSides, ImposedSides, Flat, SameRows, ElementModelsCorrect, Numbered, WellFormed;
    var el := m.elements[e];
    assert Fits(el, x);
    var f, z := Piece(ImposedElementsAlong(m, x, v), e), BothPair(w, Direction(v));
    var sides := ImposedSidesAlong(m.p, el, x, v);
    forall j: nat | j < |el.sides|
      ensures Tracks(Piece(sides, j), ImposedSides(m.p, el, x)(j), w, z) && SameRows(Piece(sides, j), g)
    {
      MatchImposedSide(m.p, el, x, v, j, w, g);
    }
    TrackFlat(sides, ImposedSides(m.p, el, x), |el.sides|, w, z);
    TrackSame(Joined(sides, |el.sides|), f, Flat(ImposedSides(m.p, el, x), |el.sides|), w, z);
    SameRowsFlat(sides, |el.sides|, g);
    SameRowsSame(Joined(sides, |el.sides|), f, g);
  }

  function ImposedAlongCurve(m: Mesh, x: seq<real>, v: seq<real>): (f: Arg -> seq<Add<nat>>)
    requires Solvable(m, x) && |v| == |x|
    ensures forall h: Arg {:trigger f(h)} :: f(h) == Imposed(m, Shift(x, h, v))
  {
    (h: Arg) => Imposed(m, Shift(x, h, v))
  }

  /** The imposed rows are differentiable and stay the same rows. */
  lemma MatchImposed(m: Mesh, x: seq<real>, v: seq<real>, w: nat -> real, g: nat)
    requires Solvable(m, x) && |v| == |x| && ModelsCorrect(m, x, v)
    ensures Tracks(ImposedAlongCurve(m, x, v), ImposedJac(m, x), w, BothPair(w, Direction(v)))
    ensures forall h: Arg :: Touches(ImposedAlongCurve(m, x, v)(h), g) <==> Touches(Imposed(m, x), g)
  {
    hide Tracks, DirichletElement, ImposedElement, Flat, SameRows, ModelsCorrect, Valid, Touches;
    var f, z := ImposedAlongCurve(m, x, v), BothPair(w, Direction(v));
    var elements := ImposedElementsAlong(m, x, v);
    forall e: nat | e < |m.elements|
      ensures Tracks(Piece(elements, e), ImposedElement(m, x)(e), w, z) && SameRows(Piece(elements, e), g)
    {
      MatchImposedElement(m, x, v, e, w, g);
    }
    TrackFlat(elements, ImposedElement(m, x), |m.elements|, w, z);
    TrackSame(Joined(elements, |m.elements|), f, Flat(ImposedElement(m, x), |m.elements|), w, z);
    SameRowsFlat(elements, |m.elements|, g);
    SameRowsSame(Joined(elements, |m.elements|), f, g);
    ShiftZero(x, v);
    RowsStay(f, g, Imposed(m, x));
  }

  lemma RowsStay(f: Arg -> seq<Add<nat>>, g: nat, start: seq<Add<nat>>)
    requires SameRows(f, g) && f(0.0) == start
    ensures forall h: Arg :: Touches(f(h), g) <==> Touches(start, g)
  {}

  function PairColumnTimes(jac: PairAdds, w: nat -> real, v: seq<real>): nat -> real {
    (j: nat) => if j < |v| then Dot(jac, BothPair(w, Delta(j))) * v[j] else 0.0
  }

  lemma {:induction false} PairColumnsRecombine(jac: PairAdds, w: nat -> real, v: seq<real>)
    ensures Sum(PairColumnTimes(jac, w, v), |v|) == Dot(jac, BothPair(w, Direction(v)))
  {
    if jac == [] {
      forall j: nat | j < |v| ensures PairColumnTimes([], w, v)(j) == 0.0 {
        assert Dot([], BothPair(w, Delta(j))) == 0.0;
      }
      SumZero(PairColumnTimes(jac, w, v), |v|);
    } else {
      var n := |jac| - 1;
      PairColumnsRecombine(jac[..n], w, v);
      assert jac == jac[..n] + [jac[n]];
      PairColumnAppend(jac[..n], jac[n], w, v);
    }
  }

  function OnePairTimes(c: real, d: nat, v: seq<real>): nat -> real {
    (j: nat) => if j < |v| then c * (Delta(j)(d) * v[j]) else 0.0
  }

  lemma PairColumnAppend(jac: PairAdds, a: Add<Pair>, w: nat -> real, v: seq<real>)
    ensures Sum(PairColumnTimes(jac + [a], w, v), |v|)
         == Sum(PairColumnTimes(jac, w, v), |v|) + w(a.at.row) * Direction(v)(a.at.col) * a.val
    ensures Dot(jac + [a], BothPair(w, Direction(v)))
         == Dot(jac, BothPair(w, Direction(v))) + w(a.at.row) * Direction(v)(a.at.col) * a.val
  {
    hide Dot, Sum;
    DotAppend(jac, a, BothPair(w, Direction(v)));
    var one := OnePairTimes(w(a.at.row) * a.val, a.at.col, v);
    forall j: nat | j < |v| ensures PairColumnTimes(jac + [a], w, v)(j) == PairColumnTimes(jac, w, v)(j) + one(j) {
      DotAppend(jac, a, BothPair(w, Delta(j)));
      ColumnStep(Dot(jac, BothPair(w, Delta(j))), w(a.at.row), Delta(j)(a.at.col), a.val, v[j]);
    }
    SumPlus(PairColumnTimes(jac, w, v), one, PairColumnTimes(jac + [a], w, v), |v|);
    OnePair(w(a.at.row) * a.val, a.at.col, v);
    assert w(a.at.row) * a.val * Direction(v)(a.at.col) == w(a.at.row) * Direction(v)(a.at.col) * a.val;
  }

  lemma OnePair(c: real, d: nat, v: seq<real>)
    ensures Sum(OnePairTimes(c, d, v), |v|) == c * Direction(v)(d)
  {
    hide Sum;
    var f := OnePairTimes(c, d, v);
    forall j: nat | j < |v| ensures f(j) == if j == d then c * v[j] else 0.0 {
      OnePairAt(c, d, j, v);
    }
    if d < |v| { SumSingle(f, d, |v|); } else { SumZero(f, |v|); }
  }

  lemma OnePairAt(c: real, d: nat, j: nat, v: seq<real>)
    requires j < |v|
    ensures OnePairTimes(c, d, v)(j) == if j == d then c * v[j] else 0.0
  {
    assert Delta(j)(d) == if d == j then 1.0 else 0.0;
  }

  // ---------------------------------------------------------------------------------------

  lemma ImposedRowDerivative(m: Mesh, ex: ExpFun, x: seq<real>, v: seq<real>, g: nat)
    requires IsExp(ex) && Solvable(m, x) && |v| == |x| && ModelsCorrect(m, x, v)
    requires Touches(Imposed(m, x), g)
    ensures HasDeriv(RowAlong(m, ex, x, v, g), Sum(RowTimes(m, ex, x, g, v), |x|))
  {
    hide HasDeriv, Imposed, ImposedJac, ModelsCorrect, Valid, Touches, Sum, Dot;
    var w := Delta(g);
    MatchImposed(m, x, v, w, g);
    var f := ImposedAlongCurve(m, x, v);
    PairColumnsRecombine(ImposedJac(m, x), w, v);
    SumEqual(RowTimes(m, ex, x, g, v), PairColumnTimes(ImposedJac(m, x), w, v), |v|);
    forall h: Arg ensures RowAlong(m, ex, x, v, g)(h) == DotCurve(f, w)(h) {
      assert Touches(f(h), g);
    }
    DerivSame(DotCurve(f, w), RowAlong(m, ex, x, v, g), Sum(RowTimes(m, ex, x, g, v), |x|));
  }

  lemma AssembledRowDerivative(m: Mesh, ex: ExpFun, x: seq<real>, v: seq<real>, g: nat)
    requires IsExp(ex) && Solvable(m, x) && |v| == |x| && ModelsCorrect(m, x, v) && OffThresholds(m, x)
    requires !Touches(Imposed(m, x), g)
    ensures HasDeriv(RowAlong(m, ex, x, v, g), Sum(RowTimes(m, ex, x, g, v), |x|))
  {
    hide HasDeriv, Imposed, Contributions, ModelsCorrect, OffThresholds, Valid, Touches, Sum, Dot, EntryOf,
      ElementMoves;
    var w := Delta(g);
    MatchImposed(m, x, v, w, g);
    DerivForm(m, ex, x, v, w);
    ExchangeSums(m, ex, x, v, g, |m.elements|);
    SumEqual(RowTimes(m, ex, x, g, v), EntriesTimes(m, ex, x, g, v, |m.elements|), |v|);
    var f := FormAlong(m, ex, x, v, w);
    forall h: Arg ensures RowAlong(m, ex, x, v, g)(h) == f(h) {
      assert !Touches(ImposedAlongCurve(m, x, v)(h), g);
    }
    DerivSame(f, RowAlong(m, ex, x, v, g), Sum(RowTimes(m, ex, x, g, v), |x|));
  }

  /** The Jacobian is exact: for every mesh, state, direction v and row g, the residual row
      along x + h*v is differentiable at h = 0 with derivative sum over j of J(g, j) * v(j). */
  lemma JacobianIsDerivative(m: Mesh, ex: ExpFun, x: seq<real>, v: seq<real>, g: nat)
    requires IsExp(ex) && Solvable(m, x) && |v| == |x| && ModelsCorrect(m, x, v) && OffThresholds(m, x)
    ensures HasDeriv(RowAlong(m, ex, x, v, g), Sum(RowTimes(m, ex, x, g, v), |x|))
  {
    hide *;
    if Touches(Imposed(m, x), g) {
      ImposedRowDerivative(m, ex, x, v, g);
    } else {
      AssembledRowDerivative(m, ex, x, v, g);
    }
  }
}
