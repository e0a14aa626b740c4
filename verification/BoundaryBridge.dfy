/** The rows of the boundary models meet what the theorem about the assembled Jacobian asks of them. */
module BoundaryBridge {
  import opened Calculus
  import opened Forms
  import opened BoxMesh
  import opened BoxDerivative
  import I = InterfaceModel
  import L = BoundaryLaws

  /** The boundary model at one node: local properties as a function of the potentials, and the
      coefficients it starts from. */
  datatype Source = Source(setup: I.Setup, kind: I.Kind, was: I.Coefficients, at: seq<real> -> I.Point)

  ghost predicate ValidSource(r: Source, blocks: nat) {
    && blocks == r.setup.n + 1 && I.ValidKind(r.setup.n, r.kind) && I.Prepared(r.setup.n, r.was)
    && forall pots: seq<real> {:trigger r.at(pots)} :: |pots| == blocks ==> I.ValidPoint(r.setup.n, r.at(pots))
  }

  /** Row k at point i of the side is what the model computes; the last block is the electric potential. */
  ghost predicate ReportsRow(el: Element, s: Side, i: nat, r: Source, k: nat)
    requires s.Modelled? && k < |el.dofs| && ValidSource(r, |el.dofs|)
  {
    forall pots: seq<real> {:trigger r.at(pots)} :: |pots| == |el.dofs| ==>
      var row, n := s.rows(i, pots)(k), r.setup.n;
      && row.dirichlet == I.NewType(r.setup, r.was, k).DIRICHLET?
      && row.a == I.NewA(r.setup, r.was, k)
      && row.g == I.NewValue(r.setup, r.kind, r.at(pots), r.was, k)
      && forall j: nat :: j <= n ==> row.jac(j) == I.NewEntry(r.setup, r.kind, r.at(pots), r.was, k, j)
  }

  ghost predicate OnSide(el: Element, x: seq<real>, v: seq<real>, s: Side, i: nat) {
    Fits(el, x) && |v| == |x| && WellFormedSide(el, s) && s.Modelled? && i < |s.nodes|
  }

  function PointAt(p: Params, el: Element, x: seq<real>, s: Side, i: nat, r: Source): (q: I.Point)
    requires Fits(el, x) && WellFormedSide(el, s) && i < |s.nodes| && ValidSource(r, |el.dofs|)
    ensures I.ValidPoint(r.setup.n, q)
  {
    r.at(Potentials(p, el, x, s.nodes[i]))
  }

  function DensityAlong(p: Params, el: Element, x: seq<real>, v: seq<real>, s: Side, i: nat, r: Source, k: nat): Curve
    requires OnSide(el, x, v, s, i) && ValidSource(r, |el.dofs|) && k < r.setup.n
  {
    (h: Arg) => PointAt(p, el, Shift(x, h, v), s, i, r).density[k]
  }

  function RateAlong(p: Params, el: Element, x: seq<real>, v: seq<real>, s: Side, i: nat, r: Source, k: nat): Curve
    requires OnSide(el, x, v, s, i) && ValidSource(r, |el.dofs|) && k < r.setup.n
  {
    (h: Arg) => PointAt(p, el, Shift(x, h, v), s, i, r).rates[k]
  }

  /** How the scaled potentials of a node move. */
  function Moves(p: Params, el: Element, v: seq<real>, n: nat): (m: seq<real>)
    requires Fits(el, v) && n < el.nNodes
    ensures |m| == |el.dofs|
  {
    seq(|el.dofs|, j requires 0 <= j < |el.dofs| => p.phi0 * Move(el, v, j, n))
  }

  /** The coefficients after one computation. */
  function After(r: Source, q: I.Point): (c: I.Coefficients)
    requires I.ValidPoint(r.setup.n, q) && I.ValidKind(r.setup.n, r.kind) && I.Prepared(r.setup.n, r.was)
    ensures I.Computed(r.setup, r.kind, q, r.was, c)
  {
    var m := r.setup.n + 1;
    I.Coefficients(seq(m, i requires 0 <= i < m => I.NewA(r.setup, r.was, i)),
                   seq(m, i requires 0 <= i < m => I.NewType(r.setup, r.was, i)),
                   seq(m, i requires 0 <= i < m => I.NewValue(r.setup, r.kind, q, r.was, i)),
                   seq(m, i requires 0 <= i < m =>
                     seq(m, j requires 0 <= j < m => I.NewEntry(r.setup, r.kind, q, r.was, i, j))))
  }

  lemma RowIs(p: Params, el: Element, x: seq<real>, v: seq<real>, s: Side, i: nat, r: Source, k: nat, h: Arg)
    requires OnSide(el, x, v, s, i) && k < |el.dofs| && ValidSource(r, |el.dofs|) && ReportsRow(el, s, i, r, k)
    ensures var row, q := BoundaryRows(p, el, Shift(x, h, v), s, i)(k), PointAt(p, el, Shift(x, h, v), s, i, r);
      && row.dirichlet == I.NewType(r.setup, r.was, k).DIRICHLET?
      && row.a == I.NewA(r.setup, r.was, k)
      && row.g == I.NewValue(r.setup, r.kind, q, r.was, k)
      && forall j: nat :: j < |el.dofs| ==> row.jac(j) == I.NewEntry(r.setup, r.kind, q, r.was, k, j)
  {
    var pots := Potentials(p, el, Shift(x, h, v), s.nodes[i]);
    assert I.ValidPoint(r.setup.n, r.at(pots));
    hide I.NewValue, I.NewEntry, I.NewType, I.NewA, I.ValidPoint;
  }

  /** The predicted move is the one of the model's row. */
  lemma PredictedMove(p: Params, el: Element, x: seq<real>, v: seq<real>, s: Side, i: nat, r: Source, k: nat)
    requires OnSide(el, x, v, s, i) && k < |el.dofs| && ValidSource(r, |el.dofs|) && ReportsRow(el, s, i, r, k)
    ensures var c := After(r, PointAt(p, el, x, s, i, r));
      Sum(BoundaryMove(p, el, x, v, s, i, k), |el.dofs|)
        == Sum(L.RowMove(c.jac[k], Moves(p, el, v, s.nodes[i])), |el.dofs|)
  {
    hide ReportsRow, Sum, I.NewEntry, I.NewType, I.NewValue, I.NewA, After;
    var q := PointAt(p, el, x, s, i, r);
    var c := After(r, q);
    forall j: nat | j < |el.dofs|
      ensures BoundaryMove(p, el, x, v, s, i, k)(j) == L.RowMove(c.jac[k], Moves(p, el, v, s.nodes[i]))(j)
    {
      OneMove(p, el, x, v, s, i, r, k, j);
    }
    hide BoundaryMove, L.RowMove;
    SumEqual(BoundaryMove(p, el, x, v, s, i, k), L.RowMove(c.jac[k], Moves(p, el, v, s.nodes[i])), |el.dofs|);
  }

  lemma OneMove(p: Params, el: Element, x: seq<real>, v: seq<real>, s: Side, i: nat, r: Source, k: nat, j: nat)
    requires OnSide(el, x, v, s, i) && k < |el.dofs| && ValidSource(r, |el.dofs|) && ReportsRow(el, s, i, r, k)
    requires j < |el.dofs|
    ensures var c := After(r, PointAt(p, el, x, s, i, r));
      BoundaryMove(p, el, x, v, s, i, k)(j) == L.RowMove(c.jac[k], Moves(p, el, v, s.nodes[i]))(j)
  {
    ShiftZero(x, v);
    RowIs(p, el, x, v, s, i, r, k, 0.0);
    hide ReportsRow, I.NewEntry, I.NewType, I.NewValue, I.NewA, BoundaryRows;
    Reorder(p.phi0, BoundaryRows(p, el, x, s, i)(k).jac(j), Move(el, v, j, s.nodes[i]));
  }

  lemma Reorder(a: real, b: real, c: real)
    ensures a * b * c == b * (a * c)
  {}

  // ---------------------------------------------------------------------------------------
  // Free carriers

  /** Density and net surface rate move as the local models promise. */
  ghost predicate CarrierMoves(p: Params, el: Element, x: seq<real>, v: seq<real>, s: Side, i: nat, r: Source, k: nat)
    requires OnSide(el, x, v, s, i) && ValidSource(r, |el.dofs|) && k < r.setup.n
  {
    var q, m := PointAt(p, el, x, s, i, r), Moves(p, el, v, s.nodes[i]);
    && HasDeriv(DensityAlong(p, el, x, v, s, i, r, k), L.DensityMove(r.setup, q, k, m))
    && HasDeriv(RateAlong(p, el, x, v, s, i, r, k), Sum(L.RateMove(q, k, m), |el.dofs|))
  }

  lemma FreeValue(p: Params, el: Element, x: seq<real>, v: seq<real>, s: Side, i: nat, r: Source, k: nat, h: Arg)
    requires OnSide(el, x, v, s, i) && ValidSource(r, |el.dofs|) && k < r.setup.n && ReportsRow(el, s, i, r, k)
    requires r.was.b[k].NEUMANN? && r.was.a[k] == 0.0
    ensures BoundaryAlong(p, el, x, v, s, i, k)(h)
      == L.ValueAlong(r.setup, r.kind, k, DensityAlong(p, el, x, v, s, i, r, k), RateAlong(p, el, x, v, s, i, r, k))(h)
  {
    RowIs(p, el, x, v, s, i, r, k, h);
    hide ReportsRow, BoundaryRows, I.Divisor;
    NoPart(p.phi0 * Potential(el, Shift(x, h, v), k, s.nodes[i]));
  }

  lemma NoPart(a: real)
    ensures 0.0 * a == 0.0
  {}

  /** The row of a free carrier: contact recombination and surface models. */
  lemma FreeRowMeets(p: Params, el: Element, x: seq<real>, v: seq<real>, s: Side, i: nat, r: Source, k: nat)
    requires OnSide(el, x, v, s, i) && ValidSource(r, |el.dofs|) && k < r.setup.n && ReportsRow(el, s, i, r, k)
    requires r.was.b[k].NEUMANN? && r.was.a[k] == 0.0 && CarrierMoves(p, el, x, v, s, i, r, k)
    ensures BoundaryModelCorrect(p, el, x, v, s, i, k)
  {
    hide BoundaryModelCorrect, ReportsRow, HasDeriv, Sum, BoundaryAlong, BoundaryMove, L.ValueAlong, ValidSource;
    hide L.RowMove, After, CarrierMoves;
    var density, rate := DensityAlong(p, el, x, v, s, i, r, k), RateAlong(p, el, x, v, s, i, r, k);
    SourceKind(r, |el.dofs|);
    var f, d := L.ValueAlong(r.setup, r.kind, k, density, rate), Sum(BoundaryMove(p, el, x, v, s, i, k), |el.dofs|);
    FreeDerivative(p, el, x, v, s, i, r, k);
    forall h: Arg ensures BoundaryAlong(p, el, x, v, s, i, k)(h) == f(h) { FreeValue(p, el, x, v, s, i, r, k, h); }
    DerivSame(f, BoundaryAlong(p, el, x, v, s, i, k), d);
    MeetsModel(p, el, x, v, s, i, r, k, d);
  }

  lemma SourceKind(r: Source, blocks: nat)
    requires ValidSource(r, blocks)
    ensures I.ValidKind(r.setup.n, r.kind) && blocks == r.setup.n + 1
  {}

  lemma FreeDerivative(p: Params, el: Element, x: seq<real>, v: seq<real>, s: Side, i: nat, r: Source, k: nat)
    requires OnSide(el, x, v, s, i) && ValidSource(r, |el.dofs|) && k < r.setup.n && ReportsRow(el, s, i, r, k)
    requires r.was.b[k].NEUMANN? && CarrierMoves(p, el, x, v, s, i, r, k)
    ensures HasDeriv(L.ValueAlong(r.setup, r.kind, k, DensityAlong(p, el, x, v, s, i, r, k),
                                  RateAlong(p, el, x, v, s, i, r, k)),
                     Sum(BoundaryMove(p, el, x, v, s, i, k), |el.dofs|))
  {
    hide ReportsRow, HasDeriv, Sum, I.Computed, After, L.ValueAlong, L.DensityMove, L.RateMove, L.RowMove, BoundaryMove;
    hide PointAt, Moves;
    PredictedMove(p, el, x, v, s, i, r, k);
    var q, m := PointAt(p, el, x, s, i, r), Moves(p, el, v, s.nodes[i]);
    var density, rate := DensityAlong(p, el, x, v, s, i, r, k), RateAlong(p, el, x, v, s, i, r, k);
    StartOfCurves(p, el, x, v, s, i, r, k);
    hide DensityAlong, RateAlong;
    L.CarrierRowExact(r.setup, r.kind, q, r.was, After(r, q), k, m, density, rate);
  }

  lemma StartOfCurves(p: Params, el: Element, x: seq<real>, v: seq<real>, s: Side, i: nat, r: Source, k: nat)
    requires OnSide(el, x, v, s, i) && ValidSource(r, |el.dofs|) && k < r.setup.n
    ensures DensityAlong(p, el, x, v, s, i, r, k)(0.0) == PointAt(p, el, x, s, i, r).density[k]
    ensures RateAlong(p, el, x, v, s, i, r, k)(0.0) == PointAt(p, el, x, s, i, r).rates[k]
  {
    ShiftZero(x, v);
    hide PointAt;
  }

  lemma MeetsModel(p: Params, el: Element, x: seq<real>, v: seq<real>, s: Side, i: nat, r: Source, k: nat, d: real)
    requires OnSide(el, x, v, s, i) && k < |el.dofs| && ValidSource(r, |el.dofs|) && ReportsRow(el, s, i, r, k)
    requires HasDeriv(BoundaryAlong(p, el, x, v, s, i, k), d)
    requires d == Sum(BoundaryMove(p, el, x, v, s, i, k), |el.dofs|)
    ensures BoundaryModelCorrect(p, el, x, v, s, i, k)
  {
    SameType(p, el, x, v, s, i, r, k);
    hide HasDeriv, Sum, BoundaryAlong, BoundaryMove, ImposedAlong, BoundaryRows, ReportsRow, ValidSource;
  }

  lemma SameType(p: Params, el: Element, x: seq<real>, v: seq<real>, s: Side, i: nat, r: Source, k: nat)
    requires OnSide(el, x, v, s, i) && k < |el.dofs| && ValidSource(r, |el.dofs|) && ReportsRow(el, s, i, r, k)
    ensures forall h: Arg :: ImposedAlong(p, el, x, v, s, i, k, h) == BoundaryRows(p, el, x, s, i)(k).dirichlet
  {
    forall h: Arg ensures ImposedAlong(p, el, x, v, s, i, k, h) == BoundaryRows(p, el, x, s, i)(k).dirichlet {
      RowIs(p, el, x, v, s, i, r, k, h);
      RowIs(p, el, x, v, s, i, r, k, 0.0);
      ShiftZero(x, v);
      hide ReportsRow, BoundaryRows, PointAt, I.NewType, I.NewA, I.NewValue, I.NewEntry;
    }
  }

  // ---------------------------------------------------------------------------------------
  // Imposed unknowns

  /** The row of an imposed unknown without surface models: value minus potential. */
  lemma ImposedRowMeets(p: Params, el: Element, x: seq<real>, v: seq<real>, s: Side, i: nat, r: Source, k: nat)
    requires OnSide(el, x, v, s, i) && ValidSource(r, |el.dofs|) && k < |el.dofs| && ReportsRow(el, s, i, r, k)
    requires I.Imposing(r.setup.n, r.was, k) && (k < r.setup.n ==> !r.setup.models && k !in r.setup.zeroFlux)
    ensures BoundaryModelCorrect(p, el, x, v, s, i, k)
  {
    hide BoundaryModelCorrect, ReportsRow, BoundaryRows, HasDeriv, Sum, BoundaryAlong, BoundaryMove, I.Imposing;
    var f, move := BoundaryAlong(p, el, x, v, s, i, k), p.phi0 * Move(el, v, k, s.nodes[i]);
    var g := f(0.0);
    forall h: Arg ensures f(h) == g + h as real * -move { ImposedValue(p, el, x, v, s, i, r, k, h); }
    ImposedMove(p, el, x, v, s, i, r, k);
    DerivAffine(f, g, -move);
    MeetsModel(p, el, x, v, s, i, r, k, -move);
  }

  lemma ImposedValue(p: Params, el: Element, x: seq<real>, v: seq<real>, s: Side, i: nat, r: Source, k: nat, h: Arg)
    requires OnSide(el, x, v, s, i) && ValidSource(r, |el.dofs|) && k < |el.dofs| && ReportsRow(el, s, i, r, k)
    requires I.Imposing(r.setup.n, r.was, k) && (k < r.setup.n ==> !r.setup.models && k !in r.setup.zeroFlux)
    ensures var f := BoundaryAlong(p, el, x, v, s, i, k);
      f(h) == f(0.0) + h as real * -(p.phi0 * Move(el, v, k, s.nodes[i]))
  {
    RowIs(p, el, x, v, s, i, r, k, h);
    RowIs(p, el, x, v, s, i, r, k, 0.0);
    hide ReportsRow, BoundaryRows;
    var a, b := Potential(el, Shift(x, h, v), k, s.nodes[i]), Potential(el, Shift(x, 0.0, v), k, s.nodes[i]);
    var m := Move(el, v, k, s.nodes[i]);
    assert a == b + h as real * m;
    ScaledDifference(p.phi0, a, b, h as real, m);
  }

  lemma ScaledDifference(c: real, a: real, b: real, h: real, m: real)
    requires a == b + h * m
    ensures 1.0 * (c * a) == 1.0 * (c * b) + h * (c * m) && h * -(c * m) == -(h * (c * m))
  {}

  lemma ImposedMove(p: Params, el: Element, x: seq<real>, v: seq<real>, s: Side, i: nat, r: Source, k: nat)
    requires OnSide(el, x, v, s, i) && ValidSource(r, |el.dofs|) && k < |el.dofs| && ReportsRow(el, s, i, r, k)
    requires I.Imposing(r.setup.n, r.was, k) && (k < r.setup.n ==> !r.setup.models && k !in r.setup.zeroFlux)
    ensures Sum(BoundaryMove(p, el, x, v, s, i, k), |el.dofs|) == -(p.phi0 * Move(el, v, k, s.nodes[i]))
  {
    ShiftZero(x, v);
    RowIs(p, el, x, v, s, i, r, k, 0.0);
    var row := BoundaryRows(p, el, x, s, i)(k);
    forall j: nat | j < |el.dofs| ensures row.jac(j) == if j == k then -1.0 else 0.0 {}
    hide ReportsRow, BoundaryRows, PointAt, I.Imposing, I.NewEntry, I.NewValue, I.NewType, I.NewA;
    forall j: nat | j < |el.dofs|
      ensures BoundaryMove(p, el, x, v, s, i, k)(j) == if j == k then -(p.phi0 * Move(el, v, k, s.nodes[i])) else 0.0
    {
      var e, m := row.jac(j), Move(el, v, j, s.nodes[i]);
      assert BoundaryMove(p, el, x, v, s, i, k)(j) == p.phi0 * e * m;
      SignedMove(p.phi0, e, m);
    }
    hide BoundaryMove;
    SumSingle(BoundaryMove(p, el, x, v, s, i, k), k, |el.dofs|);
  }

  lemma SignedMove(c: real, e: real, m: real)
    requires e == -1.0 || e == 0.0
    ensures c * e * m == if e == 0.0 then 0.0 else -(c * m)
  {}

  // ---------------------------------------------------------------------------------------
  // The free potential with trapped surface charge

  function TrapsAlong(p: Params, el: Element, x: seq<real>, v: seq<real>, s: Side, i: nat, r: Source): Curve
    requires OnSide(el, x, v, s, i) && ValidSource(r, |el.dofs|)
  {
    (h: Arg) => var q := PointAt(p, el, Shift(x, h, v), s, i, r); q.electronTraps + q.holeTraps
  }

  /** Change of the trapped charge: it follows the distance of each carrier's potential from the electric one. */
  function TrapMove(q: I.Point, m: seq<real>, n: nat): nat -> real
    requires n < |m|
  {
    (j: nat) => if j < n && j < |q.trapSlopes| then q.trapSlopes[j] * (m[j] - m[n]) else 0.0
  }

  lemma TrapShare(a: real, d: real, b: real, c: real)
    requires d > 0.0
    ensures -(-a / d) * b + (-a / d) * c == a * (b - c) / d
  {
    var q := a / d;
    assert -a / d == -q;
    assert q * (b - c) == q * b - q * c;
    assert a * (b - c) / d == q * (b - c) by { Times(a, b - c, d, q); }
  }

  lemma Times(a: real, e: real, d: real, q: real)
    requires d > 0.0 && q == a / d
    ensures a * e / d == q * e
  {
    assert a == q * d;
    assert a * e == (q * e) * d;
  }

  /** The trap row's move, carrier by carrier. */
  lemma {:induction false} TrapRowMove(u: I.Setup, q: I.Point, m: seq<real>, f: nat -> real, k: nat)
    requires I.ValidPoint(u.n, q) && |m| == u.n + 1 && k <= u.n
    requires forall j: nat :: j < u.n ==> f(j) == -I.TrapSlope(u, q)(j) * m[j]
    ensures Sum(f, k) + Sum(I.TrapSlope(u, q), k) * m[u.n] == Sum(TrapMove(q, m, u.n), k) / I.Divisor(u)
  {
    hide I.Divisor;
    if k > 0 {
      TrapRowMove(u, q, m, f, k - 1);
      TrapEntry(u, q, m, k - 1);
      hide TrapMove, I.TrapSlope;
      Gathered(Sum(f, k - 1), Sum(I.TrapSlope(u, q), k - 1), f(k - 1), I.TrapSlope(u, q)(k - 1), m[u.n],
               Sum(TrapMove(q, m, u.n), k - 1), TrapMove(q, m, u.n)(k - 1), I.Divisor(u));
    }
  }

  lemma TrapEntry(u: I.Setup, q: I.Point, m: seq<real>, j: nat)
    requires I.ValidPoint(u.n, q) && |m| == u.n + 1 && j < u.n
    ensures -I.TrapSlope(u, q)(j) * m[j] + I.TrapSlope(u, q)(j) * m[u.n] == TrapMove(q, m, u.n)(j) / I.Divisor(u)
  {
    hide I.Divisor;
    TrapShare(q.trapSlopes[j], I.Divisor(u), m[j], m[u.n]);
  }

  lemma Gathered(a: real, b: real, f: real, c: real, m: real, t: real, e: real, d: real)
    requires d > 0.0 && a + b * m == t / d && f + c * m == e / d
    ensures a + f + (b + c) * m == (t + e) / d
  {}

  /** The row of a free potential: trapped charge, halved on internal boundaries. */
  lemma PotentialRowMeets(p: Params, el: Element, x: seq<real>, v: seq<real>, s: Side, i: nat, r: Source)
    requires OnSide(el, x, v, s, i) && ValidSource(r, |el.dofs|) && ReportsRow(el, s, i, r, r.setup.n)
    requires r.was.b[r.setup.n].NEUMANN? && r.was.a[r.setup.n] == 0.0
    requires HasDeriv(TrapsAlong(p, el, x, v, s, i, r),
                      Sum(TrapMove(PointAt(p, el, x, s, i, r), Moves(p, el, v, s.nodes[i]), r.setup.n), r.setup.n))
    ensures BoundaryModelCorrect(p, el, x, v, s, i, r.setup.n)
  {
    hide BoundaryModelCorrect, ReportsRow, HasDeriv, Sum, BoundaryAlong, BoundaryMove, ValidSource;
    hide TrapsAlong, TrapMove, PointAt, Moves, I.Divisor;
    SourceKind(r, |el.dofs|);
    var n, q, m := r.setup.n, PointAt(p, el, x, s, i, r), Moves(p, el, v, s.nodes[i]);
    var total := Sum(TrapMove(q, m, n), n);
    var c := 1.0 / I.Divisor(r.setup);
    var f, d := BoundaryAlong(p, el, x, v, s, i, n), Sum(BoundaryMove(p, el, x, v, s, i, n), |el.dofs|);
    forall h: Arg ensures f(h) == c * TrapsAlong(p, el, x, v, s, i, r)(h) { TrapValue(p, el, x, v, s, i, r, h); }
    TrapMoves(p, el, x, v, s, i, r);
    L.InverseTimes(total, I.Divisor(r.setup));
    DerivScale(TrapsAlong(p, el, x, v, s, i, r), total, c, f, d);
    MeetsModel(p, el, x, v, s, i, r, n, d);
  }

  lemma TrapValue(p: Params, el: Element, x: seq<real>, v: seq<real>, s: Side, i: nat, r: Source, h: Arg)
    requires OnSide(el, x, v, s, i) && ValidSource(r, |el.dofs|) && ReportsRow(el, s, i, r, r.setup.n)
    requires r.was.b[r.setup.n].NEUMANN? && r.was.a[r.setup.n] == 0.0
    ensures BoundaryAlong(p, el, x, v, s, i, r.setup.n)(h)
      == 1.0 / I.Divisor(r.setup) * TrapsAlong(p, el, x, v, s, i, r)(h)
  {
    RowIs(p, el, x, v, s, i, r, r.setup.n, h);
    hide ReportsRow, BoundaryRows, I.Divisor;
    NoPart(p.phi0 * Potential(el, Shift(x, h, v), r.setup.n, s.nodes[i]));
    L.InverseTimes(TrapsAlong(p, el, x, v, s, i, r)(h), I.Divisor(r.setup));
  }

  lemma TrapMoves(p: Params, el: Element, x: seq<real>, v: seq<real>, s: Side, i: nat, r: Source)
    requires OnSide(el, x, v, s, i) && ValidSource(r, |el.dofs|) && ReportsRow(el, s, i, r, r.setup.n)
    requires r.was.b[r.setup.n].NEUMANN?
    ensures Sum(BoundaryMove(p, el, x, v, s, i, r.setup.n), |el.dofs|)
      == Sum(TrapMove(PointAt(p, el, x, s, i, r), Moves(p, el, v, s.nodes[i]), r.setup.n), r.setup.n)
       / I.Divisor(r.setup)
  {
    hide ReportsRow, PointAt, Moves, TrapMove, I.Divisor, BoundaryMove, L.RowMove, After, Sum;
    PredictedMove(p, el, x, v, s, i, r, r.setup.n);
    TrapRow(r, PointAt(p, el, x, s, i, r), Moves(p, el, v, s.nodes[i]));
  }

  /** The row of the potential after a computation, applied to a move. */
  lemma TrapRow(r: Source, q: I.Point, m: seq<real>)
    requires I.ValidPoint(r.setup.n, q) && I.ValidKind(r.setup.n, r.kind) && I.Prepared(r.setup.n, r.was)
    requires |m| == r.setup.n + 1 && r.was.b[r.setup.n].NEUMANN?
    ensures Sum(L.RowMove(After(r, q).jac[r.setup.n], m), r.setup.n + 1)
      == Sum(TrapMove(q, m, r.setup.n), r.setup.n) / I.Divisor(r.setup)
  {
    var n, row := r.setup.n, After(r, q).jac[r.setup.n];
    assert forall j: nat :: j <= n ==> row[j] == I.NewEntry(r.setup, r.kind, q, r.was, n, j);
    assert row[n] == Sum(I.TrapSlope(r.setup, q), n);
    assert forall j: nat :: j < n ==> row[j] == -I.TrapSlope(r.setup, q)(j);
    hide After, I.NewEntry, I.TrapSlope, TrapMove, I.Divisor, I.ValidKind, I.Prepared;
    var f := L.RowMove(row, m);
    forall j: nat | j < n ensures f(j) == -I.TrapSlope(r.setup, q)(j) * m[j] {}
    TrapRowMove(r.setup, q, m, f, n);
  }
}
