/** Periodic boundaries of the gray solver: the energy they send into a slice is shifted by the
    difference of two average energies, which can leave the range of all energies. */
module GrayPeriodic {
  import opened Calculus
  import opened Forms
  import opened BoxMesh
  import opened GraySystem
  import opened GraySolver
  import opened GrayRange

  // ---------------------------------------------------------------------------------------
  // The states of a run

  /** The energies are the averages of the stored directional energies. */
  ghost predicate Averaged(p: Problem, s: State)
    requires p.total > 0.0
  {
    s.e == Energy(p, s.sd, |p.slices|)
  }

  /** Where a run starts: every direction has the equilibrium energy. */
  function Start(p: Problem, e: seq<real>): (s: State)
    requires |e| == |p.grid.cells|
    ensures ValidState(p, s)
  {
    State(e, seq(|p.slices|, _ => e))
  }

  /** The average of equal energies. */
  lemma StartIsAveraged(p: Problem, e: seq<real>)
    requires ValidProblem(p) && Covering(p) && |e| == |p.grid.cells|
    ensures Averaged(p, Start(p, e))
  {
    var s, n := Start(p, e), |p.slices|;
    SharesSum(p, n);
    WholeShare(p.total);
    forall c: nat | c < |e| ensures Sum(EnergyShare(p, s.sd, c), n) == e[c] {
      forall k: nat | k < n ensures EnergyShare(p, s.sd, c)(k) == e[c] * AngleShare(p)(k) {}
      hide EnergyShare, AngleShare, Sum;
      SumScale(AngleShare(p), e[c], EnergyShare(p, s.sd, c), n);
    }
  }

  /** In every run all states are averaged. */
  lemma RunsAreAveraged(p: Problem, e: seq<real>, n: nat)
    requires ValidProblem(p) && Covering(p) && |e| == |p.grid.cells|
    ensures Averaged(p, Iterate(p, Start(p, e), n))
  {
    hide ValidProblem, Covering, Energy, Swept;
    if n == 0 { StartIsAveraged(p, e); }
  }

  /** A slice finds its own stored energies as the sweep found them. */
  lemma {:induction false} OwnStored(p: Problem, s: State, n: nat, now: nat)
    requires ValidProblem(p) && ValidState(p, s) && n <= now < |p.slices|
    ensures Swept(p, s.e, s.sd, n)[now] == s.sd[now]
  {
    hide RowsFor;
    if n > 0 { OwnStored(p, s, n - 1, now); }
  }

  /** So what a periodic boundary gives in a sweep depends on the state before the sweep. */
  lemma PeriodicSeesState(p: Problem, s: State, b: Boundary, now: nat)
    requires ValidProblem(p) && ValidState(p, s) && ValidBoundary(p, b) && b.Periodic? && now < |p.slices|
    ensures BoundaryValueOf(p, b, now, Swept(p, s.e, s.sd, now), s.e) == BoundaryValueOf(p, b, now, s.sd, s.e)
  {
    OwnStored(p, s, now, now);
    hide Swept;
  }

  // ---------------------------------------------------------------------------------------
  // When the range is kept

  /** The slice has the whole solid angle. */
  predicate Alone(p: Problem, now: nat)
    requires now < |p.slices|
  {
    p.slices[now].dOmega == p.total
  }

  /** Stored energies: hi everywhere, but lo at one cell in all directions except now. */
  function Opposed(p: Problem, other: nat, now: nat, lo: real, hi: real): (sd: Stored)
    ensures ShapedLike(p, sd)
    ensures forall k, c :: 0 <= k < |p.slices| && 0 <= c < |p.grid.cells| ==>
      sd[k][c] == if c == other && k != now then lo else hi
  {
    seq(|p.slices|, k => seq(|p.grid.cells|, c => if c == other && k != now then lo else hi))
  }

  function Only(now: nat, x: real): nat -> real {
    (k: nat) => if k == now then x else 0.0
  }

  /** The average at the cell where only one direction is high. */
  lemma OpposedAverage(p: Problem, other: nat, now: nat, lo: real, hi: real, w: real)
    requires ValidProblem(p) && Covering(p) && now < |p.slices| && other < |p.grid.cells|
    requires w == p.slices[now].dOmega / p.total
    ensures Energy(p, Opposed(p, other, now, lo, hi), |p.slices|)[other] == lo + w * (hi - lo)
  {
    assert p.total > 0.0;
    hide EnergyShare, AngleShare, Sum, Opposed, Only, ValidProblem, Energy, Covering;
    var sd, n, x := Opposed(p, other, now, lo, hi), |p.slices|, w * (hi - lo);
    forall k: nat | k < n ensures EnergyShare(p, sd, other)(k) == lo * AngleShare(p)(k) + Only(now, x)(k) {
      OpposedShare(p, other, now, lo, hi, w, k);
    }
    ShareIsWhole(p);
    MultiplePlusOne(EnergyShare(p, sd, other), AngleShare(p), lo, now, x, n);
  }

  lemma ShareIsWhole(p: Problem)
    requires ValidProblem(p) && Covering(p)
    ensures Sum(AngleShare(p), |p.slices|) == 1.0
  {
    SharesSum(p, |p.slices|);
    WholeShare(p.total);
  }

  lemma {:induction false} MultiplePlusOne(f: nat -> real, g: nat -> real, a: real, now: nat, x: real, n: nat)
    requires forall k: nat :: k < n ==> f(k) == a * g(k) + Only(now, x)(k)
    ensures Sum(f, n) == a * Sum(g, n) + if now < n then x else 0.0
  {
    if n > 0 {
      MultiplePlusOne(f, g, a, now, x, n - 1);
      assert a * (Sum(g, n - 1) + g(n - 1)) == a * Sum(g, n - 1) + a * g(n - 1);
    }
  }

  lemma OpposedShare(p: Problem, other: nat, now: nat, lo: real, hi: real, w: real, k: nat)
    requires p.total > 0.0 && now < |p.slices| && other < |p.grid.cells| && k < |p.slices|
    requires w == p.slices[now].dOmega / p.total
    ensures EnergyShare(p, Opposed(p, other, now, lo, hi), other)(k)
      == lo * AngleShare(p)(k) + Only(now, w * (hi - lo))(k)
  {
    SplitShare(p.slices[k].dOmega / p.total, lo, hi);
  }

  lemma SplitShare(w: real, lo: real, hi: real)
    ensures Product(w, hi) == lo * w + w * (hi - lo) && Product(w, lo) == lo * w
  {}

  /** The average at a cell where all directions are high. */
  lemma OpposedElsewhere(p: Problem, cell: nat, other: nat, now: nat, lo: real, hi: real)
    requires ValidProblem(p) && Covering(p) && now < |p.slices| && cell < |p.grid.cells| && cell != other
    ensures Energy(p, Opposed(p, other, now, lo, hi), |p.slices|)[cell] == hi
  {
    var sd, n := Opposed(p, other, now, lo, hi), |p.slices|;
    forall k: nat | k < n ensures EnergyShare(p, sd, cell)(k) == hi * AngleShare(p)(k) {}
    SharesSum(p, n);
    WholeShare(p.total);
    hide EnergyShare, AngleShare, Sum;
    SumScale(AngleShare(p), hi, EnergyShare(p, sd, cell), n);
  }

  lemma OpposedWithin(p: Problem, other: nat, now: nat, lo: real, hi: real)
    requires ValidProblem(p) && Covering(p) && now < |p.slices| && lo <= hi
    ensures var sd := Opposed(p, other, now, lo, hi); StateWithin(p, State(Energy(p, sd, |p.slices|), sd), lo, hi)
  {
    var sd := Opposed(p, other, now, lo, hi);
    assert StoredWithin(p, sd, lo, hi);
    EnergyInRange(p, sd, lo, hi);
  }

  /** One slice among several has less than the whole solid angle. */
  lemma PartOfAngle(p: Problem, now: nat)
    requires ValidProblem(p) && Covering(p) && now < |p.slices| && !Alone(p, now)
    ensures p.slices[now].dOmega / p.total < 1.0
  {
    forall k: nat | k < |p.slices| ensures AngleOf(p)(k) >= 0.0 {}
    SumAtLeast(AngleOf(p), now, |p.slices|);
    ProperPart(p.slices[now].dOmega, p.total);
  }

  lemma ProperPart(a: real, b: real)
    requires 0.0 < a < b
    ensures a / b < 1.0
  {
    var q := a / b;
    assert q * b == a;
    if q >= 1.0 { NonNegative(q - 1.0, b); }
  }

  lemma Beyond(w: real, lo: real, hi: real)
    requires w < 1.0 && lo < hi
    ensures hi + (hi - (lo + w * (hi - lo))) > hi
  {
    var v, d, x := 1.0 - w, hi - lo, w * (hi - lo);
    Positive(v, d);
    assert v * d == d - x;
  }

  /** A state that leaves the range. */
  lemma LeavesRange(p: Problem, b: Boundary, now: nat, lo: real, hi: real) returns (s: State)
    requires ValidProblem(p) && Covering(p) && ValidBoundary(p, b) && b.Periodic? && now < |p.slices| && lo < hi
    requires b.partner.Found? && b.partner.cell != b.cell && !Alone(p, now)
    ensures StateWithin(p, s, lo, hi) && Averaged(p, s) && BoundaryValueOf(p, b, now, s.sd, s.e) > hi
  {
    var other, w := b.partner.cell, p.slices[now].dOmega / p.total;
    var sd := Opposed(p, other, now, lo, hi);
    s := State(Energy(p, sd, |p.slices|), sd);
    OpposedWithin(p, other, now, lo, hi);
    OpposedAverage(p, other, now, lo, hi, w);
    OpposedElsewhere(p, b.cell, other, now, lo, hi);
    PartOfAngle(p, now);
    Beyond(w, lo, hi);
    hide StateWithin, Energy, Opposed;
  }

  /** A single slice has no other direction to average with. */
  lemma AloneIsAverage(p: Problem, s: State, now: nat, c: nat)
    requires ValidProblem(p) && Covering(p) && ValidState(p, s) && Averaged(p, s) && now < |p.slices| && Alone(p, now)
    requires c < |p.grid.cells|
    ensures s.e[c] == s.sd[now][c]
  {
    var n, f := |p.slices|, AngleOf(p);
    assert forall k: nat :: k < n ==> f(k) > 0.0;
    if n > 1 {
      TwoTermsBelow(f, now, if now == 0 then 1 else 0, n);
      assert false;
    }
    WholeShare(p.total);
    var share := EnergyShare(p, s.sd, c);
    assert Sum(share, 1) == Sum(share, 0) + share(0);
    assert share(0) == Product(1.0, s.sd[0][c]);
  }

  lemma {:induction false} TwoTermsBelow(f: nat -> real, i: nat, j: nat, n: nat)
    requires i < n && j < n && i != j && forall k: nat :: k < n ==> f(k) >= 0.0
    ensures f(i) + f(j) <= Sum(f, n)
  {
    if i == n - 1 {
      SumAtLeast(f, j, n - 1);
    } else if j == n - 1 {
      SumAtLeast(f, i, n - 1);
    } else {
      TwoTermsBelow(f, i, j, n - 1);
    }
  }

  /** Energies at a periodic boundary stay in the range for all states a run can average to, exactly
      if the boundary refers to its own cell or to none, or only one energy is allowed, or there is
      no other direction. */
  lemma PeriodicKeepsRange(p: Problem, b: Boundary, now: nat, lo: real, hi: real)
    requires ValidProblem(p) && Covering(p) && ValidBoundary(p, b) && b.Periodic? && now < |p.slices| && lo <= hi
    ensures (forall s: State :: StateWithin(p, s, lo, hi) && Averaged(p, s) ==>
               lo <= BoundaryValueOf(p, b, now, s.sd, s.e) <= hi)
       <==> lo == hi || b.partner == NotFound || b.partner == Found(b.cell) || Alone(p, now)
  {
    assert p.total > 0.0;
    hide ValidProblem, Covering, Averaged;
    if lo == hi || b.partner == NotFound || b.partner == Found(b.cell) || Alone(p, now) {
      forall s: State | StateWithin(p, s, lo, hi) && Averaged(p, s)
        ensures lo <= BoundaryValueOf(p, b, now, s.sd, s.e) <= hi
      {
        assert Within(s.sd[now], lo, hi);
        if b.partner.Found? && Alone(p, now) { AloneIsAverage(p, s, now, b.partner.cell); }
      }
    } else {
      var s := LeavesRange(p, b, now, lo, hi);
    }
  }

  // ---------------------------------------------------------------------------------------
  // A run that leaves the range

  const RIGHT := Vec(1.0, 0.0, 0.0)
  const LEFT := Vec(-1.0, 0.0, 0.0)

  /** A cell of a bar; without heat source, and as long as the mean free path. */
  function BarCell(left: GSide, right: GSide): GCell {
    GCell(1.0, [left, right], 1.0, 1.0, 1.0, 0.0)
  }

  /** Three cells in a row between two boundaries. */
  const BAR := Grid([
    BarCell(Open(1.0, LEFT, 0), Shared(1.0, RIGHT, 1)),
    BarCell(Shared(1.0, LEFT, 0), Shared(1.0, RIGHT, 2)),
    BarCell(Shared(1.0, LEFT, 1), Open(1.0, RIGHT, 1))])

  /** One direction to the right and one to the left. */
  const OPPOSITE := [Slice(RIGHT, RIGHT, 1.0), Slice(LEFT, LEFT, 1.0)]

  /** The ends of the bar are identified. */
  const ENDS := [Periodic(0, Found(2)), Periodic(2, Found(0))]

  /** The ring of three cells, with any solver. */
  function Ring(solve: Solver): Problem {
    Problem(BAR, OPPOSITE, ENDS, solve, 2.0, 1.0)
  }

  ghost predicate IsRing(p: Problem) {
    p.grid == BAR && p.slices == OPPOSITE && p.boundaries == ENDS && p.total == 2.0
  }

  /** Forward substitution where the first cell is given, backward substitution otherwise. */
  function Substitute(rows: seq<Row>): (x: seq<real>)
    ensures |x| == |rows|
  {
    if |rows| != 3 then seq(|rows|, _ => 0.0)
    else if rows[0].Given? && rows[1].Balance? && rows[2].Balance? then
      var x0 := rows[0].value;
      var x1 := (rows[1].rhs + x0) / 2.0;
      [x0, x1, (rows[2].rhs + x1) / 2.0]
    else if rows[2].Given? && rows[1].Balance? && rows[0].Balance? then
      var x2 := rows[2].value;
      var x1 := (rows[1].rhs + x2) / 2.0;
      [(rows[0].rhs + x1) / 2.0, x1, x2]
    else [0.0, 0.0, 0.0]
  }

  function Forward(b: real, e: seq<real>): (x: seq<real>)
    requires |e| == 3
    ensures |x| == 3
  {
    var x1 := (e[1] + b) / 2.0;
    [b, x1, (e[2] + x1) / 2.0]
  }

  function Backward(b: real, e: seq<real>): (x: seq<real>)
    requires |e| == 3
    ensures |x| == 3
  {
    var x1 := (e[1] + b) / 2.0;
    [(e[0] + x1) / 2.0, x1, b]
  }

  lemma BarFlows(left: GSide, right: GSide)
    requires left.normal == LEFT && right.normal == RIGHT && left.area == right.area == 1.0
    ensures var c := BarCell(left, right);
      && Inflow(OPPOSITE[0], left) && !Inflow(OPPOSITE[0], right)
      && !Inflow(OPPOSITE[1], left) && Inflow(OPPOSITE[1], right)
      && Through(c, OPPOSITE[0], left) == -1.0 && Through(c, OPPOSITE[0], right) == 1.0
      && Through(c, OPPOSITE[1], left) == 1.0 && Through(c, OPPOSITE[1], right) == -1.0
  {}

  /** The rows of a cell in the bar, for the two directions. */
  lemma BarRow(left: GSide, right: GSide, supply: real, bnd: nat -> real)
    requires left.normal == LEFT && right.normal == RIGHT && left.area == right.area == 1.0
    ensures CellRow(OPPOSITE[0], BarCell(left, right), supply, bnd)
      == if left.Open? then Given(bnd(left.boundary)) else Balance(2.0, [-1.0, 0.0], supply)
    ensures CellRow(OPPOSITE[1], BarCell(left, right), supply, bnd)
      == if right.Open? then Given(bnd(right.boundary)) else Balance(2.0, [0.0, -1.0], supply)
  {
    var c := BarCell(left, right);
    BarFlows(left, right);
    forall d | d in OPPOSITE
      ensures LastOpen(d, c.sides, 2) == if c.sides[1].Open? && Inflow(d, c.sides[1]) then 1
                                         else if c.sides[0].Open? && Inflow(d, c.sides[0]) then 0 else 2
      ensures Sum(OutPart(c, d), 2) == OutPart(c, d)(0) + OutPart(c, d)(1)
    {
      assert LastOpen(d, c.sides, 1) == if c.sides[0].Open? && Inflow(d, c.sides[0]) then 0 else 2;
      assert Sum(OutPart(c, d), 1) == Sum(OutPart(c, d), 0) + OutPart(c, d)(0);
    }
    hide Inflow, Through, Sum, LastOpen;
    assert Inflows(c, OPPOSITE[0]) == [-1.0, 0.0];
    assert Inflows(c, OPPOSITE[1]) == [0.0, -1.0];
  }

  /** The rows of the ring. */
  lemma RingRows(p: Problem, e: seq<real>, sd: Stored)
    requires IsRing(p) && ValidProblem(p) && |e| == 3 && ShapedLike(p, sd)
    ensures RowsFor(p, e, sd, 0) == RowsRight(sd[0][2] + (e[0] - e[2]), e)
    ensures RowsFor(p, e, sd, 1) == RowsLeft(sd[1][0] + (e[2] - e[0]), e)
  {
    hide ValidProblem, CellRow;
    forall c: nat, bnd: nat -> real | c < 3
      ensures CellRow(OPPOSITE[0], BAR.cells[c], e[c], bnd)
        == if c == 0 then Given(bnd(0)) else Balance(2.0, [-1.0, 0.0], e[c])
      ensures CellRow(OPPOSITE[1], BAR.cells[c], e[c], bnd)
        == if c == 2 then Given(bnd(1)) else Balance(2.0, [0.0, -1.0], e[c])
    {
      BarRow(BAR.cells[c].sides[0], BAR.cells[c].sides[1], e[c], bnd);
    }
    forall c: nat | c < 3 ensures BAR.cells[c].Supply(e[c]) == e[c] { NoSupply(BAR.cells[c], e[c]); }
    assert BoundaryData(p, 0, sd, e)(0) == sd[0][2] + (e[0] - e[2]);
    assert BoundaryData(p, 1, sd, e)(1) == sd[1][0] + (e[2] - e[0]);
  }

  /** What a row of the bar says about a solution: the inner entry refers to the neighbour inflow comes from. */
  lemma BarBalance(c: nat, k: nat, supply: real, x: seq<real>)
    requires c < 3 && k < 2 && |x| == 3 && c != 2 * k
    ensures Satisfies(BAR.cells[c], Balance(2.0, if k == 0 then [-1.0, 0.0] else [0.0, -1.0], supply), x, c)
      <==> 2.0 * x[c] - x[if k == 0 then c - 1 else c + 1] == supply
  {
    var off := if k == 0 then [-1.0, 0.0] else [0.0, -1.0];
    var f := Neighbours(BAR.cells[c], off, x);
    assert Sum(f, 1) == Sum(f, 0) + f(0);
    assert Sum(f, 2) == Sum(f, 1) + f(1);
  }

  lemma Solves3(rows: seq<Row>, x: seq<real>)
    requires |rows| == |x| == 3
    ensures Solves(BAR, rows, x) <==>
      Satisfies(BAR.cells[0], rows[0], x, 0) && Satisfies(BAR.cells[1], rows[1], x, 1)
      && Satisfies(BAR.cells[2], rows[2], x, 2)
  {
    hide Satisfies;
  }

  function RowsRight(b: real, e: seq<real>): (rows: seq<Row>)
    requires |e| == 3
    ensures |rows| == 3
  {
    [Given(b), Balance(2.0, [-1.0, 0.0], e[1]), Balance(2.0, [-1.0, 0.0], e[2])]
  }

  function RowsLeft(b: real, e: seq<real>): (rows: seq<Row>)
    requires |e| == 3
    ensures |rows| == 3
  {
    [Balance(2.0, [0.0, -1.0], e[0]), Balance(2.0, [0.0, -1.0], e[1]), Given(b)]
  }

  /** The systems of the ring have exactly the solutions found by substitution. */
  lemma RingSolution(b: real, e: seq<real>, x: seq<real>)
    requires |e| == |x| == 3
    ensures Solves(BAR, RowsRight(b, e), x) <==> x == Forward(b, e)
    ensures Solves(BAR, RowsLeft(b, e), x) <==> x == Backward(b, e)
  {
    Solves3(RowsRight(b, e), x);
    Solves3(RowsLeft(b, e), x);
    BarBalance(1, 0, e[1], x);
    BarBalance(2, 0, e[2], x);
    BarBalance(0, 1, e[0], x);
    BarBalance(1, 1, e[1], x);
    GivenRow(b, x, 0);
    GivenRow(b, x, 2);
    hide Satisfies, Solves;
  }

  lemma GivenRow(b: real, x: seq<real>, c: nat)
    requires c < 3 && |x| == 3
    ensures Satisfies(BAR.cells[c], Given(b), x, c) <==> x[c] == b
  {}

  lemma RingIsValid(solve: Solver)
    requires forall rows: seq<Row> :: |rows| == 3 ==> |solve(rows)| == 3
    ensures ValidProblem(Ring(solve)) && Covering(Ring(solve))
  {
    var f := AngleOf(Ring(solve));
    assert Sum(f, 1) == Sum(f, 0) + f(0);
  }

  /** Substitution solves them. */
  lemma SubstitutionSolves(p: Problem)
    requires p == Ring(Substitute)
    ensures ValidProblem(p) && SolvesSystems(p)
  {
    RingIsValid(Substitute);
    forall k: nat, e: seq<real>, sd: Stored | k < 2 && |e| == 3 && ShapedLike(p, sd)
      ensures Solves(BAR, RowsFor(p, e, sd, k), p.solve(RowsFor(p, e, sd, k)))
    {
      SubstitutionDirection(p, e, sd, k);
    }
  }

  lemma SubstitutionDirection(p: Problem, e: seq<real>, sd: Stored, k: nat)
    requires p == Ring(Substitute) && ValidProblem(p) && |e| == 3 && ShapedLike(p, sd) && k < 2
    ensures Solves(BAR, RowsFor(p, e, sd, k), Substitute(RowsFor(p, e, sd, k)))
  {
    RingRows(p, e, sd);
    hide ValidProblem, RowsFor, Solves, Substitute, RowsRight, RowsLeft;
    SubstitutionSolution(if k == 0 then sd[0][2] + (e[0] - e[2]) else sd[1][0] + (e[2] - e[0]), e);
  }

  lemma SubstitutionSolution(b: real, e: seq<real>)
    requires |e| == 3
    ensures Solves(BAR, RowsRight(b, e), Substitute(RowsRight(b, e)))
    ensures Solves(BAR, RowsLeft(b, e), Substitute(RowsLeft(b, e)))
  {
    hide Solves;
    RingSolution(b, e, Forward(b, e));
    RingSolution(b, e, Backward(b, e));
    assert Substitute(RowsRight(b, e)) == Forward(b, e);
    assert Substitute(RowsLeft(b, e)) == Backward(b, e);
  }

  /** One sweep around the ring. */
  lemma RingSweep(p: Problem, s: State)
    requires IsRing(p) && ValidProblem(p) && SolvesSystems(p) && ValidState(p, s)
    ensures var f := Forward(s.sd[0][2] + (s.e[0] - s.e[2]), s.e);
            var b := Backward(s.sd[1][0] + (s.e[2] - s.e[0]), s.e);
            Next(p, s) == State([(f[0] + b[0]) / 2.0, (f[1] + b[1]) / 2.0, (f[2] + b[2]) / 2.0], [f, b])
  {
    var e, sd := s.e, s.sd;
    hide ValidProblem, Solves, Forward, Backward, RowsFor, RowsRight, RowsLeft, Energy, Swept, IsRing;
    RingSizes(p);
    var x := RingDirection(p, e, sd, 0);
    var mid := sd[0 := x];
    var y := RingDirection(p, e, mid, 1);
    hide SolvesSystems;
    TwoSlices(p, e, sd, x, y);
    EnergyOfRing(p, [x, y]);
  }

  lemma RingSizes(p: Problem)
    requires IsRing(p)
    ensures |p.slices| == 2 && |p.grid.cells| == 3
  {}

  lemma TwoSlices(p: Problem, e: seq<real>, sd: Stored, x: seq<real>, y: seq<real>)
    requires ValidProblem(p) && |p.slices| == 2 && |e| == |p.grid.cells| && ShapedLike(p, sd)
    requires x == p.solve(RowsFor(p, e, sd, 0)) && |x| == |e| && y == p.solve(RowsFor(p, e, sd[0 := x], 1))
    ensures Swept(p, e, sd, 2) == [x, y]
  {
    hide ValidProblem, RowsFor;
    assert Swept(p, e, sd, 0) == sd;
    assert Swept(p, e, sd, 1) == sd[0 := x];
    assert sd[0 := x][1 := y] == [x, y];
  }

  /** The solution for one direction. */
  lemma RingDirection(p: Problem, e: seq<real>, sd: Stored, k: nat) returns (x: seq<real>)
    requires IsRing(p) && ValidProblem(p) && SolvesSystems(p) && |e| == 3 && ShapedLike(p, sd) && k < 2
    ensures |x| == 3 && x == p.solve(RowsFor(p, e, sd, k))
    ensures x == if k == 0 then Forward(sd[0][2] + (e[0] - e[2]), e) else Backward(sd[1][0] + (e[2] - e[0]), e)
  {
    x := p.solve(RowsFor(p, e, sd, k));
    assert |x| == 3;
    assert Solves(p.grid, RowsFor(p, e, sd, k), x);
    RingRows(p, e, sd);
    hide ValidProblem, SolvesSystems, Solves, Forward, Backward, RowsFor, RowsRight, RowsLeft;
    RingSolution(if k == 0 then sd[0][2] + (e[0] - e[2]) else sd[1][0] + (e[2] - e[0]), e, x);
  }

  lemma EnergyOfRing(p: Problem, end: Stored)
    requires IsRing(p) && ShapedLike(p, end)
    ensures Energy(p, end, 2)
      == [(end[0][0] + end[1][0]) / 2.0, (end[0][1] + end[1][1]) / 2.0, (end[0][2] + end[1][2]) / 2.0]
  {
    forall c: nat | c < 3 ensures Sum(EnergyShare(p, end, c), 2) == (end[0][c] + end[1][c]) / 2.0 {
      HalfAndHalf(p, end, c);
    }
    hide EnergyShare, Sum;
  }

  lemma HalfAndHalf(p: Problem, end: Stored, c: nat)
    requires IsRing(p) && ShapedLike(p, end) && c < 3
    ensures Sum(EnergyShare(p, end, c), 2) == (end[0][c] + end[1][c]) / 2.0
  {
    var f := EnergyShare(p, end, c);
    assert Sum(f, 1) == Sum(f, 0) + f(0);
  }

  /** From energies 1, 1 and 0 the second sweep sends 1.125 through the identified ends. */
  lemma RingLeavesRange(p: Problem)
    requires IsRing(p) && ValidProblem(p) && SolvesSystems(p)
    ensures var s := Iterate(p, Start(p, [1.0, 1.0, 0.0]), 1);
      BoundaryValueOf(p, ENDS[0], 0, s.sd, s.e) == 1.125
    ensures Iterate(p, Start(p, [1.0, 1.0, 0.0]), 2).sd[0][0] == 1.125
  {
    hide ValidProblem, SolvesSystems, Next;
    var s0 := Start(p, [1.0, 1.0, 0.0]);
    var s1 := Next(p, s0);
    RingSweep(p, s0);
    assert s1 == State([0.875, 0.75, 0.25], [[1.0, 1.0, 0.5], [0.75, 0.5, 0.0]]);
    assert Iterate(p, s0, 1) == s1 by { assert Iterate(p, s0, 0) == s0; }
    RingSweep(p, s1);
    assert Iterate(p, s0, 2) == Next(p, s1);
  }

  /** The same on the object. */
  method LeaveRange() returns (t: GrayTransport)
    ensures fresh(t) && t.Valid() && t.p == Ring(Substitute) && t.stored[0][0] == 1.125
  {
    var p := Ring(Substitute);
    SubstitutionSolves(p);
    t := new GrayTransport(p, [1.0, 1.0, 0.0]);
    ghost var s0 := t.Contents();
    assert s0 == Start(p, [1.0, 1.0, 0.0]);
    RingLeavesRange(p);
    hide ValidProblem, SolvesSystems, Next;
    t.Sweep();
    t.Sweep();
    assert Iterate(p, s0, 1) == Next(p, Iterate(p, s0, 0)) == Next(p, s0);
    assert t.Contents() == Iterate(p, s0, 2);
  }
}
