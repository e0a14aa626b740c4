/** One direction of the gray transport equation on cells: upwind rows and their maximum
    principle. */
module GraySystem {
  import opened Calculus
  import opened Forms
  import opened BoxMesh

  /** A cell's side with its outward normal: shared with another cell, or on the boundary. */
  datatype GSide =
    | Shared(area: real, normal: Vec, cell: nat)
    | Open(area: real, normal: Vec, boundary: nat)

  /** A cell with its material: sound velocity, relaxation time, heat capacity and heat source. */
  datatype GCell = GCell(volume: real, sides: seq<GSide>, velocity: real, relaxation: real, capacity: real, heat: real)
  {
    /** Mean free path. */
    function Reach(): real { velocity * relaxation }

    /** Energy the heat source adds to the equilibrium energy. */
    function Supply(e0: real): real
      requires capacity > 0.0
    {
      e0 + heat * relaxation / capacity
    }
  }

  datatype Grid = Grid(cells: seq<GCell>)

  /** Direction of a slice, its integral and the solid angle. */
  datatype Slice = Slice(dir: Vec, integrated: Vec, dOmega: real)

  /** A row of the system: transport balance with the neighbours, or an imposed value. */
  datatype Row =
    | Balance(diag: real, off: seq<real>, rhs: real)
    | Given(value: real)

  ghost predicate ValidGrid(g: Grid) {
    forall c :: 0 <= c < |g.cells| ==>
         && g.cells[c].volume > 0.0 && g.cells[c].Reach() >= 0.0 && g.cells[c].capacity > 0.0
         && forall s :: 0 <= s < |g.cells[c].sides| && g.cells[c].sides[s].Shared? ==>
              g.cells[c].sides[s].cell < |g.cells|
  }

  /** Flow through a side per unit of energy. */
  function Through(c: GCell, d: Slice, s: GSide): real
    requires d.dOmega > 0.0
  {
    c.Reach() * Inner(d.integrated, s.normal) / d.dOmega * s.area
  }

  predicate Inflow(d: Slice, s: GSide) {
    Inner(d.dir, s.normal) < 0.0
  }

  function OutPart(c: GCell, d: Slice): nat -> real
    requires d.dOmega > 0.0
  {
    (s: nat) => if s < |c.sides| && !Inflow(d, c.sides[s]) then Through(c, d, c.sides[s]) else 0.0
  }

  function InPart(c: GCell, d: Slice): nat -> real
    requires d.dOmega > 0.0
  {
    (s: nat) => if s < |c.sides| && Inflow(d, c.sides[s]) then Through(c, d, c.sides[s]) else 0.0
  }

  /** Position of the last boundary side with inflow, or the number of sides. */
  function LastOpen(d: Slice, sides: seq<GSide>, n: nat): (r: nat)
    requires n <= |sides|
    ensures r < n ==> sides[r].Open? && Inflow(d, sides[r])
    ensures r < n || r == |sides|
    ensures r == |sides| ==> forall s :: 0 <= s < n && sides[s].Open? ==> !Inflow(d, sides[s])
    ensures r < n ==> forall s :: r < s < n && sides[s].Open? ==> !Inflow(d, sides[s])
  {
    if n == 0 then |sides|
    else if sides[n - 1].Open? && Inflow(d, sides[n - 1]) then n - 1
    else LastOpen(d, sides, n - 1)
  }

  function Inflows(c: GCell, d: Slice): (r: seq<real>)
    requires d.dOmega > 0.0
    ensures |r| == |c.sides| && forall s: nat :: s < |c.sides| ==> r[s] == InPart(c, d)(s)
  {
    seq(|c.sides|, s requires 0 <= s < |c.sides| => InPart(c, d)(s))
  }

  /** The row of a cell: an inflow boundary side replaces the balance, the last one decides. */
  function CellRow(d: Slice, c: GCell, supply: real, bnd: nat -> real): Row
    requires d.dOmega > 0.0
  {
    var last := LastOpen(d, c.sides, |c.sides|);
    if last < |c.sides| then Given(bnd(c.sides[last].boundary))
    else Balance(c.volume + Sum(OutPart(c, d), |c.sides|), Inflows(c, d), supply * c.volume)
  }

  ghost predicate IsRow(d: Slice, c: GCell, supply: real, bnd: nat -> real, r: Row)
    requires d.dOmega > 0.0
  {
    r == CellRow(d, c, supply, bnd)
  }

  /** Assembly of one row; bnd gives the boundary values. */
  method AssembleRow(d: Slice, c: GCell, e0: real, bnd: nat -> real) returns (r: Row)
    requires d.dOmega > 0.0 && c.capacity > 0.0
    ensures IsRow(d, c, c.Supply(e0), bnd, r)
  {
    var n := |c.sides|;
    var diag, off := c.volume, [];
    for s := 0 to n
      invariant |off| == s && diag == c.volume + Sum(OutPart(c, d), s)
      invariant forall i: nat :: i < s ==> off[i] == InPart(c, d)(i)
    {
      var side := c.sides[s];
      var inward := Inner(d.dir, side.normal);
      var value := c.velocity * c.relaxation * Inner(d.integrated, side.normal) / d.dOmega * side.area;
      assert value == Through(c, d, side);
      if inward < 0.0 {
        off := off + [value];
      } else {
        off := off + [0.0];
        diag := diag + value;
      }
    }
    var rhs := (e0 + c.heat * c.relaxation / c.capacity) * c.volume;
    r := Balance(diag, off, rhs);
    assert off == Inflows(c, d);
    for s := 0 to n
      invariant var last := LastOpen(d, c.sides, s);
                if last < n then r == Given(bnd(c.sides[last].boundary)) else r == Balance(diag, off, rhs)
    {
      if c.sides[s].Open? && Inflow(d, c.sides[s]) {
        r := Given(bnd(c.sides[s].boundary));
      }
    }
  }

  // ---------------------------------------------------------------------------------------
  // Solutions

  /** Column of a side; boundary sides refer to the first cell with a vanishing entry. */
  function ColumnOf(s: GSide): nat {
    if s.Shared? then s.cell else 0
  }

  function Neighbours(c: GCell, off: seq<real>, x: seq<real>): nat -> real {
    (s: nat) => if s < |c.sides| && s < |off| && ColumnOf(c.sides[s]) < |x| then off[s] * x[ColumnOf(c.sides[s])]
      else 0.0
  }

  ghost predicate Satisfies(c: GCell, r: Row, x: seq<real>, k: nat)
    requires k < |x|
  {
    match r
    case Given(v) => x[k] == v
    case Balance(diag, off, rhs) => diag * x[k] + Sum(Neighbours(c, off, x), |c.sides|) == rhs
  }

  ghost predicate Solves(g: Grid, rows: seq<Row>, x: seq<real>) {
    && |rows| == |x| == |g.cells|
    && forall k :: 0 <= k < |x| ==> Satisfies(g.cells[k], rows[k], x, k)
  }

  ghost predicate AreRows(g: Grid, d: Slice, e: seq<real>, bnd: nat -> real, rows: seq<Row>)
    requires d.dOmega > 0.0
  {
    && |rows| == |e| == |g.cells|
    && forall k :: 0 <= k < |rows| ==> IsRow(d, g.cells[k], e[k], bnd, rows[k])
  }

  ghost predicate Within(x: seq<real>, lo: real, hi: real) {
    forall k :: 0 <= k < |x| ==> lo <= x[k] <= hi
  }

  // ---------------------------------------------------------------------------------------
  // Closed cells and upwind signs

  function AreaX(sides: seq<GSide>): nat -> real {
    (s: nat) => if s < |sides| then sides[s].area * sides[s].normal.x else 0.0
  }
  function AreaY(sides: seq<GSide>): nat -> real {
    (s: nat) => if s < |sides| then sides[s].area * sides[s].normal.y else 0.0
  }
  function AreaZ(sides: seq<GSide>): nat -> real {
    (s: nat) => if s < |sides| then sides[s].area * sides[s].normal.z else 0.0
  }

  /** The outward areas of a closed cell add up to nothing. */
  ghost predicate ClosedCell(c: GCell) {
    && Sum(AreaX(c.sides), |c.sides|) == 0.0
    && Sum(AreaY(c.sides), |c.sides|) == 0.0
    && Sum(AreaZ(c.sides), |c.sides|) == 0.0
    && forall s :: 0 <= s < |c.sides| ==> c.sides[s].area >= 0.0
  }

  /** The middle direction and the integrated one see every side from the same face. */
  ghost predicate SameFace(d: Slice, c: GCell) {
    forall s :: 0 <= s < |c.sides| ==>
      if Inflow(d, c.sides[s]) then Inner(d.integrated, c.sides[s].normal) <= 0.0
      else Inner(d.integrated, c.sides[s].normal) >= 0.0
  }

  /** Flow through sides with the given total areas. */
  function FlowOf(c: GCell, d: Slice, ax: real, ay: real, az: real): real
    requires d.dOmega > 0.0
  {
    c.Reach() / d.dOmega * (d.integrated.x * ax + d.integrated.y * ay + d.integrated.z * az)
  }

  lemma {:induction false} PartsAddUp(c: GCell, d: Slice, n: nat)
    requires d.dOmega > 0.0 && n <= |c.sides|
    ensures Sum(OutPart(c, d), n) + Sum(InPart(c, d), n)
         == FlowOf(c, d, Sum(AreaX(c.sides), n), Sum(AreaY(c.sides), n), Sum(AreaZ(c.sides), n))
  {
    hide AreaX, AreaY, AreaZ, OutPart, InPart;
    if n > 0 {
      var m := n - 1;
      PartsAddUp(c, d, m);
      ThroughAt(c, d, m);
      FlowGrows(c, d, Sum(AreaX(c.sides), m), Sum(AreaY(c.sides), m), Sum(AreaZ(c.sides), m),
                AreaX(c.sides)(m), AreaY(c.sides)(m), AreaZ(c.sides)(m));
      hide FlowOf;
    } else {
      assert d.integrated.x * 0.0 + d.integrated.y * 0.0 + d.integrated.z * 0.0 == 0.0;
    }
  }

  lemma FlowGrows(c: GCell, d: Slice, ax: real, ay: real, az: real, sx: real, sy: real, sz: real)
    requires d.dOmega > 0.0
    ensures FlowOf(c, d, ax + sx, ay + sy, az + sz) == FlowOf(c, d, ax, ay, az) + FlowOf(c, d, sx, sy, sz)
  {}

  lemma ThroughAt(c: GCell, d: Slice, s: nat)
    requires d.dOmega > 0.0 && s < |c.sides|
    ensures OutPart(c, d)(s) + InPart(c, d)(s)
         == FlowOf(c, d, AreaX(c.sides)(s), AreaY(c.sides)(s), AreaZ(c.sides)(s))
  {}

  lemma NoFlow(c: GCell, d: Slice)
    requires d.dOmega > 0.0
    ensures FlowOf(c, d, 0.0, 0.0, 0.0) == 0.0
  {
    assert d.integrated.x * 0.0 + d.integrated.y * 0.0 + d.integrated.z * 0.0 == 0.0;
  }

  /** The row sum of a closed cell is its volume. */
  lemma RowSumIsVolume(d: Slice, c: GCell, supply: real, bnd: nat -> real, r: Row)
    requires d.dOmega > 0.0 && ClosedCell(c) && IsRow(d, c, supply, bnd, r) && r.Balance?
    ensures r.diag + Sum(InPart(c, d), |c.sides|) == c.volume
  {
    hide Sum, AreaX, AreaY, AreaZ, OutPart, InPart, LastOpen, FlowOf;
    PartsAddUp(c, d, |c.sides|);
    NoFlow(c, d);
  }

  lemma InflowSign(d: Slice, c: GCell, s: nat)
    requires d.dOmega > 0.0 && c.Reach() >= 0.0 && ClosedCell(c) && SameFace(d, c) && s < |c.sides|
    ensures InPart(c, d)(s) <= 0.0
  {}

  // ---------------------------------------------------------------------------------------
  // Maximum principle

  /** The neighbours' part is bounded by the row's inflow times a bound of the solution. */
  lemma {:induction false} NeighboursBounded(c: GCell, off: seq<real>, x: seq<real>, top: real, n: nat, f: nat -> real)
    requires n <= |c.sides| == |off|
    requires forall s: nat :: s < n ==> off[s] == f(s) <= 0.0 && ColumnOf(c.sides[s]) < |x|
    requires forall k :: 0 <= k < |x| ==> x[k] <= top
    ensures Sum(Neighbours(c, off, x), n) >= Sum(f, n) * top
  {
    if n > 0 {
      NeighboursBounded(c, off, x, top, n - 1, f);
      var s := n - 1;
      var y := x[ColumnOf(c.sides[s])];
      assert (-off[s]) * (top - y) >= 0.0;
      assert off[s] * y >= f(s) * top;
      assert (Sum(f, n - 1) + f(s)) * top == Sum(f, n - 1) * top + f(s) * top;
    }
  }

  lemma {:induction false} Highest(x: seq<real>, n: nat) returns (k: nat)
    requires 0 < n <= |x|
    ensures k < n && forall i :: 0 <= i < n ==> x[i] <= x[k]
  {
    k := 0;
    if n > 1 {
      k := Highest(x, n - 1);
      if x[n - 1] > x[k] { k := n - 1; }
    }
  }

  ghost predicate Regular(g: Grid, d: Slice) {
    d.dOmega > 0.0 && ValidGrid(g)
    && forall c :: 0 <= c < |g.cells| ==> ClosedCell(g.cells[c]) && SameFace(d, g.cells[c])
  }

  lemma RowParts(g: Grid, d: Slice, e: seq<real>, bnd: nat -> real, rows: seq<Row>, k: nat)
    requires Regular(g, d) && AreRows(g, d, e, bnd, rows) && k < |rows| && rows[k].Balance?
    ensures var c, r := g.cells[k], rows[k];
            && |r.off| == |c.sides| && r.rhs == e[k] * c.volume
            && r.diag + Sum(InPart(c, d), |c.sides|) == c.volume
            && forall s: nat :: s < |c.sides| ==>
                 r.off[s] == InPart(c, d)(s) <= 0.0 && ColumnOf(c.sides[s]) < |rows|
  {
    var c := g.cells[k];
    RowSumIsVolume(d, c, e[k], bnd, rows[k]);
    forall s: nat | s < |c.sides| ensures InPart(c, d)(s) <= 0.0 && ColumnOf(c.sides[s]) < |rows| {
      InflowSign(d, c, s);
    }
    hide Sum, InPart, OutPart, LastOpen, ClosedCell, SameFace;
  }

  lemma Balanced(g: Grid, rows: seq<Row>, x: seq<real>, k: nat)
    requires Solves(g, rows, x) && k < |x| && rows[k].Balance?
    ensures rows[k].diag * x[k] + Sum(Neighbours(g.cells[k], rows[k].off, x), |g.cells[k].sides|) == rows[k].rhs
  {}

  /** At the cell with the highest energy the balance allows no more than the source. */
  lemma PeakBounded(g: Grid, d: Slice, e: seq<real>, bnd: nat -> real, rows: seq<Row>, x: seq<real>, k: nat)
    requires Regular(g, d) && AreRows(g, d, e, bnd, rows) && Solves(g, rows, x) && k < |x|
    requires rows[k].Balance? && forall i :: 0 <= i < |x| ==> x[i] <= x[k]
    ensures x[k] <= e[k]
  {
    hide Sum, InPart, OutPart, Neighbours, IsRow, ColumnOf, LastOpen, Inflow, Through, Satisfies, ClosedCell,
      SameFace, Inner;
    var c, r := g.cells[k], rows[k];
    var f := InPart(c, d);
    RowParts(g, d, e, bnd, rows, k);
    Balanced(g, rows, x, k);
    hide Regular, AreRows, Solves;
    NeighboursBounded(c, r.off, x, x[k], |c.sides|, f);
    PeakAlgebra(r.diag, Sum(f, |c.sides|), c.volume, x[k], e[k], Sum(Neighbours(c, r.off, x), |c.sides|));
  }

  lemma PeakAlgebra(diag: real, inflow: real, volume: real, x: real, e: real, nb: real)
    requires volume > 0.0 && diag + inflow == volume && diag * x + nb == e * volume && nb >= inflow * x
    ensures x <= e
  {}

  /** No solution exceeds the source and the given values. */
  lemma UpperBound(g: Grid, d: Slice, e: seq<real>, bnd: nat -> real, rows: seq<Row>, x: seq<real>, hi: real)
    requires Regular(g, d) && AreRows(g, d, e, bnd, rows) && Solves(g, rows, x)
    requires forall k :: 0 <= k < |e| ==> e[k] <= hi
    requires forall k :: 0 <= k < |rows| && rows[k].Given? ==> rows[k].value <= hi
    ensures forall k :: 0 <= k < |x| ==> x[k] <= hi
  {
    if |x| > 0 {
      var k := Highest(x, |x|);
      assert Satisfies(g.cells[k], rows[k], x, k);
      if rows[k].Balance? {
        PeakBounded(g, d, e, bnd, rows, x, k);
      }
    }
  }

  // ---------------------------------------------------------------------------------------
  // The lower bound, by changing all signs

  function Minus1(x: seq<real>): (r: seq<real>)
    ensures |r| == |x| && forall k :: 0 <= k < |x| ==> r[k] == -x[k]
  {
    seq(|x|, k requires 0 <= k < |x| => -x[k])
  }

  function MinusRow(r: Row): Row {
    match r
    case Given(v) => Given(-v)
    case Balance(diag, off, rhs) => Balance(diag, off, -rhs)
  }

  function MinusRows(rows: seq<Row>): (r: seq<Row>)
    ensures |r| == |rows| && forall k :: 0 <= k < |rows| ==> r[k] == MinusRow(rows[k])
  {
    seq(|rows|, k requires 0 <= k < |rows| => MinusRow(rows[k]))
  }

  function MinusData(bnd: nat -> real): nat -> real { (b: nat) => -bnd(b) }

  lemma {:induction false} NeighboursMinus(c: GCell, off: seq<real>, x: seq<real>, n: nat)
    ensures Sum(Neighbours(c, off, Minus1(x)), n) == -Sum(Neighbours(c, off, x), n)
  {
    if n > 0 { NeighboursMinus(c, off, x, n - 1); }
  }

  lemma MinusSolves(g: Grid, d: Slice, e: seq<real>, bnd: nat -> real, rows: seq<Row>, x: seq<real>)
    requires Regular(g, d) && AreRows(g, d, e, bnd, rows) && Solves(g, rows, x)
    ensures AreRows(g, d, Minus1(e), MinusData(bnd), MinusRows(rows)) && Solves(g, MinusRows(rows), Minus1(x))
  {
    forall k | 0 <= k < |x| ensures Satisfies(g.cells[k], MinusRow(rows[k]), Minus1(x), k) {
      assert Satisfies(g.cells[k], rows[k], x, k);
      if rows[k].Balance? {
        NeighboursMinus(g.cells[k], rows[k].off, x, |g.cells[k].sides|);
        assert rows[k].diag * -x[k] == -(rows[k].diag * x[k]);
      }
    }
    hide Sum, Satisfies, LastOpen;
    forall k | 0 <= k < |rows| ensures IsRow(d, g.cells[k], -e[k], MinusData(bnd), MinusRow(rows[k])) {
      assert IsRow(d, g.cells[k], e[k], bnd, rows[k]);
      assert -e[k] * g.cells[k].volume == -(e[k] * g.cells[k].volume);
    }
  }

  /** Every directional solution stays between the extremes of the source and of the values given
      at the inflow boundaries. */
  lemma SolutionInRange(g: Grid, d: Slice, e: seq<real>, bnd: nat -> real, rows: seq<Row>, x: seq<real>, lo: real,
                        hi: real)
    requires Regular(g, d) && AreRows(g, d, e, bnd, rows) && Solves(g, rows, x) && Within(e, lo, hi)
    requires forall k :: 0 <= k < |rows| && rows[k].Given? ==> lo <= rows[k].value <= hi
    ensures Within(x, lo, hi)
  {
    UpperBound(g, d, e, bnd, rows, x, hi);
    MinusSolves(g, d, e, bnd, rows, x);
    hide Regular, AreRows, Solves;
    UpperBound(g, d, Minus1(e), MinusData(bnd), MinusRows(rows), Minus1(x), -lo);
    forall k | 0 <= k < |x| ensures x[k] >= lo {
      assert Minus1(x)[k] <= -lo;
    }
  }
}
