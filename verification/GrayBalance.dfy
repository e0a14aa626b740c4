/** What a solution of the gray transport system balances: upwind flow through the sides of a cell
    against relaxation and heat source, cell by cell and for the whole grid. */
module GrayBalance {
  import opened Calculus
  import opened Forms
  import opened BoxMesh
  import opened GraySystem

  /** Energy on the upwind side of a side. */
  function Upwind(d: Slice, s: GSide, x: seq<real>, c: nat): real
    requires c < |x|
  {
    if Inflow(d, s) then (if s.Shared? && s.cell < |x| then x[s.cell] else 0.0) else x[c]
  }

  /** Energy the flow carries out through a side: velocity * (integrated direction . normal) / solid angle
      * area * upwind energy. */
  function Carried(g: Grid, d: Slice, x: seq<real>, c: nat): nat -> real
    requires d.dOmega > 0.0 && c < |x| == |g.cells|
  {
    (s: nat) => if s < |g.cells[c].sides| then
        var side := g.cells[c].sides[s];
        g.cells[c].velocity * (Inner(d.integrated, side.normal) / d.dOmega * side.area) * Upwind(d, side, x, c)
      else 0.0
  }

  /** A cell that no boundary side flows into. */
  ghost predicate Interior(g: Grid, d: Slice, c: nat)
    requires c < |g.cells|
  {
    forall s :: 0 <= s < |g.cells[c].sides| && g.cells[c].sides[s].Open? ==> !Inflow(d, g.cells[c].sides[s])
  }

  lemma ThroughIs(c: GCell, d: Slice, s: GSide, u: real)
    requires d.dOmega > 0.0
    ensures Through(c, d, s) * u
      == c.relaxation * (c.velocity * (Inner(d.integrated, s.normal) / d.dOmega * s.area) * u)
  {
    var i := Inner(d.integrated, s.normal);
    hide Inner;
    var q := i / d.dOmega;
    Quotient1(c.velocity * c.relaxation, i, d.dOmega, q);
    Regroup(c.velocity, c.relaxation, q, s.area, u);
  }

  lemma Quotient1(k: real, i: real, o: real, q: real)
    requires o > 0.0 && q == i / o
    ensures k * i / o == k * q
  {
    assert i == q * o;
    assert k * i == (k * q) * o;
  }

  lemma Regroup(v: real, r: real, q: real, a: real, u: real)
    ensures v * r * q * a * u == r * (v * (q * a) * u)
  {
    var m := q * a;
    assert v * r * q * a == r * (v * m);
    assert r * (v * m) * u == r * (v * m * u);
  }

  /** Outflow and inflow part of a row, applied to a solution, are the carried energies. */
  lemma {:induction false} RowCarries(g: Grid, d: Slice, off: seq<real>, x: seq<real>, c: nat, n: nat, xc: real,
                                      r: real)
    requires d.dOmega > 0.0 && ValidGrid(g) && c < |x| == |g.cells| && Interior(g, d, c)
    requires off == Inflows(g.cells[c], d) && n <= |g.cells[c].sides| && xc == x[c] && r == g.cells[c].relaxation
    ensures Sum(OutPart(g.cells[c], d), n) * xc + Sum(Neighbours(g.cells[c], off, x), n)
      == r * Sum(Carried(g, d, x, c), n)
  {
    hide OutPart, Neighbours, Carried, Inflows, Interior, ValidGrid;
    var f, h, k := OutPart(g.cells[c], d), Neighbours(g.cells[c], off, x), Carried(g, d, x, c);
    if n > 0 {
      RowCarries(g, d, off, x, c, n - 1, xc, r);
      OneSide(g, d, off, x, c, n - 1, xc, r);
      RowStep(Sum(f, n - 1), f(n - 1), xc, r, Sum(k, n - 1), k(n - 1), Sum(h, n - 1), h(n - 1));
    } else {
      NoPart(xc, r);
    }
  }

  lemma RowStep(a: real, b: real, x: real, r: real, s: real, t: real, na: real, nb: real)
    requires a * x + na == r * s && b * x + nb == r * t
    ensures (a + b) * x + (na + nb) == r * (s + t)
  {}

  lemma OneSide(g: Grid, d: Slice, off: seq<real>, x: seq<real>, c: nat, s: nat, xc: real, r: real)
    requires d.dOmega > 0.0 && ValidGrid(g) && c < |x| == |g.cells| && Interior(g, d, c)
    requires off == Inflows(g.cells[c], d) && s < |g.cells[c].sides| && xc == x[c] && r == g.cells[c].relaxation
    ensures OutPart(g.cells[c], d)(s) * xc + Neighbours(g.cells[c], off, x)(s) == r * Carried(g, d, x, c)(s)
  {
    var cell, side := g.cells[c], g.cells[c].sides[s];
    ThroughIs(cell, d, side, Upwind(d, side, x, c));
    assert off[s] == InPart(cell, d)(s);
    hide Through, Inner;
    NoPart(xc, x[GraySystem.ColumnOf(side)]);
  }

  lemma NoPart(a: real, b: real)
    ensures 0.0 * a == 0.0 && 0.0 * b == 0.0 && b * 0.0 == 0.0
  {}

  /** Kinetic balance of a cell: what the flow carries out is what relaxation towards the equilibrium energy
      and the heat source supply. */
  lemma KineticBalance(g: Grid, d: Slice, e: seq<real>, supply: seq<real>, bnd: nat -> real, rows: seq<Row>,
                       x: seq<real>, c: nat)
    requires d.dOmega > 0.0 && ValidGrid(g) && c < |x| == |g.cells| == |e| && Interior(g, d, c)
    requires |supply| == |e| && supply[c] == g.cells[c].Supply(e[c])
    requires AreRows(g, d, supply, bnd, rows) && Solves(g, rows, x) && g.cells[c].relaxation > 0.0
    ensures var cell := g.cells[c];
      Sum(Carried(g, d, x, c), |cell.sides|)
        == cell.volume * (e[c] - x[c]) / cell.relaxation + cell.volume * cell.heat / cell.capacity
  {
    hide Sum, OutPart, Neighbours, Carried, Inflows, AreRows, Solves, Interior, ValidGrid;
    var cell, n := g.cells[c], |g.cells[c].sides|;
    var off := Inflows(cell, d);
    InteriorRow(g, d, supply, bnd, rows, x, c);
    RowCarries(g, d, off, x, c, n, x[c], cell.relaxation);
    assert cell.capacity > 0.0 by { PositiveCapacity(g, c); }
    Balanced(cell.volume, Sum(OutPart(cell, d), n), x[c], Sum(Neighbours(cell, off, x), n), e[c], cell.heat,
             cell.relaxation, cell.capacity, Sum(Carried(g, d, x, c), n), supply[c]);
  }

  lemma PositiveCapacity(g: Grid, c: nat)
    requires ValidGrid(g) && c < |g.cells|
    ensures g.cells[c].capacity > 0.0
  {}

  /** The row of such a cell, applied to a solution. */
  lemma InteriorRow(g: Grid, d: Slice, supply: seq<real>, bnd: nat -> real, rows: seq<Row>, x: seq<real>, c: nat)
    requires d.dOmega > 0.0 && c < |x| == |g.cells| == |supply| && Interior(g, d, c)
    requires AreRows(g, d, supply, bnd, rows) && Solves(g, rows, x)
    ensures var cell := g.cells[c];
      (cell.volume + Sum(OutPart(cell, d), |cell.sides|)) * x[c]
      + Sum(Neighbours(cell, Inflows(cell, d), x), |cell.sides|) == supply[c] * cell.volume
  {
    var cell := g.cells[c];
    assert IsRow(d, cell, supply[c], bnd, rows[c]) && Satisfies(cell, rows[c], x, c);
    hide Sum, OutPart, Neighbours, Inflows;
    assert LastOpen(d, cell.sides, |cell.sides|) == |cell.sides|;
  }

  lemma Balanced(v: real, o: real, x: real, nb: real, e: real, h: real, r: real, cap: real, f: real, sup: real)
    requires r > 0.0 && cap > 0.0 && o * x + nb == r * f
    requires (v + o) * x + nb == sup * v && sup == e + h * r / cap
    ensures f == v * (e - x) / r + v * h / cap
  {
    var q := h / cap;
    assert q * cap == h;
    HeatShare(h, r, cap, q);
    assert (v + o) * x == v * x + o * x;
    assert (e + q * r) * v == e * v + q * r * v;
    assert r * f == v * (e - x) + r * (v * q);
    var p := v * (e - x) / r;
    assert p * r == v * (e - x);
    assert v * h / cap == v * q by { HeatTimes(v, h, cap, q); }
    assert r * (f - v * q - p) == 0.0;
    ZeroOf(r, f - v * q - p);
  }

  lemma HeatShare(h: real, r: real, cap: real, q: real)
    requires cap > 0.0 && q * cap == h
    ensures h * r / cap == q * r
  {
    assert h * r == (q * r) * cap;
  }

  lemma HeatTimes(v: real, h: real, cap: real, q: real)
    requires cap > 0.0 && q * cap == h
    ensures v * h / cap == v * q
  {
    assert v * h == (v * q) * cap;
  }

  lemma ZeroOf(r: real, a: real)
    requires r > 0.0 && r * a == 0.0
    ensures a == 0.0
  {}

  // ---------------------------------------------------------------------------------------
  // Groups of cells

  /** Side s of cell c and side t of its neighbour are the two faces of one side. */
  ghost predicate Faces(g: Grid, d: Slice, c: nat, s: nat, t: nat)
    requires c < |g.cells| && s < |g.cells[c].sides| && g.cells[c].sides[s].Shared?
    requires g.cells[c].sides[s].cell < |g.cells|
  {
    var a, there := g.cells[c].sides[s], g.cells[g.cells[c].sides[s].cell];
    && t < |there.sides| && there.sides[t].Shared? && there.sides[t].cell == c
    && there.sides[t].area == a.area && there.velocity == g.cells[c].velocity
    && there.sides[t].normal == Vec(-a.normal.x, -a.normal.y, -a.normal.z)
    && (Inner(d.dir, a.normal) == 0.0 ==> Inner(d.integrated, a.normal) == 0.0)
  }

  /** Neighbours see their common side from both faces, and have only one in common. */
  ghost predicate Paired(g: Grid, d: Slice)
    requires ValidGrid(g)
  {
    && (forall c: nat, s: nat :: c < |g.cells| && s < |g.cells[c].sides| && g.cells[c].sides[s].Shared? ==>
          g.cells[c].sides[s].cell != c && exists t: nat :: Faces(g, d, c, s, t))
    && forall c: nat, s: nat, t: nat ::
         (c < |g.cells| && s < |g.cells[c].sides| && t < |g.cells[c].sides| && g.cells[c].sides[s].Shared?
          && g.cells[c].sides[t].Shared? && g.cells[c].sides[s].cell == g.cells[c].sides[t].cell) ==> s == t
  }

  lemma Opposite(a: Vec, n: Vec, m: Vec)
    requires m == Vec(-n.x, -n.y, -n.z)
    ensures Inner(a, m) == -Inner(a, n)
  {}

  /** What one face sends out the other takes in. */
  lemma FacesCancel(g: Grid, d: Slice, x: seq<real>, c: nat, s: nat, t: nat)
    requires d.dOmega > 0.0 && c < |x| == |g.cells| && s < |g.cells[c].sides| && g.cells[c].sides[s].Shared?
    requires g.cells[c].sides[s].cell < |g.cells| && Faces(g, d, c, s, t)
    ensures Carried(g, d, x, g.cells[c].sides[s].cell)(t) == -Carried(g, d, x, c)(s)
  {
    var side, other := g.cells[c].sides[s], g.cells[c].sides[s].cell;
    var back := g.cells[other].sides[t];
    Opposite(d.dir, side.normal, back.normal);
    Opposite(d.integrated, side.normal, back.normal);
    var i, u := Inner(d.integrated, side.normal), if Inner(d.dir, side.normal) < 0.0 then x[other] else x[c];
    Mirror(g.cells[c].velocity, i, d.dOmega, side.area, u);
    if Inner(d.dir, side.normal) == 0.0 {
      Still(g.cells[c].velocity, d.dOmega, side.area, x[c]);
      Still(g.cells[c].velocity, d.dOmega, side.area, x[other]);
    }
  }

  lemma Mirror(v: real, i: real, o: real, a: real, u: real)
    requires o > 0.0
    ensures v * (-i / o * a) * u == -(v * (i / o * a) * u)
  {
    var q := i / o;
    assert -i / o == -q;
    var m := q * a;
    assert -q * a == -m;
    assert v * -m == -(v * m);
  }

  lemma Still(v: real, o: real, a: real, u: real)
    requires o > 0.0
    ensures v * (0.0 / o * a) * u == 0.0 && v * (-0.0 / o * a) * u == 0.0
  {}

  /** Energy carried from c to one neighbour, for cells of the group. */
  function SentTo(g: Grid, d: Slice, x: seq<real>, group: nat -> bool, c: nat, other: nat): nat -> real
    requires d.dOmega > 0.0 && c < |x| == |g.cells|
  {
    (s: nat) => if s < |g.cells[c].sides| && g.cells[c].sides[s].Shared? && g.cells[c].sides[s].cell == other
                   && group(c) && group(other) then Carried(g, d, x, c)(s) else 0.0
  }

  function Sent(g: Grid, d: Slice, x: seq<real>, group: nat -> bool): (nat, nat) -> real
    requires d.dOmega > 0.0 && |x| == |g.cells|
  {
    (c: nat, other: nat) => if c < |g.cells| && other < |g.cells| then
        Sum(SentTo(g, d, x, group, c, other), |g.cells[c].sides|)
      else 0.0
  }

  lemma SentOnce(g: Grid, d: Slice, x: seq<real>, group: nat -> bool, c: nat, s: nat)
    requires d.dOmega > 0.0 && ValidGrid(g) && Paired(g, d) && c < |x| == |g.cells| && s < |g.cells[c].sides|
    requires g.cells[c].sides[s].Shared? && group(c) && group(g.cells[c].sides[s].cell)
    ensures Sent(g, d, x, group)(c, g.cells[c].sides[s].cell) == Carried(g, d, x, c)(s)
  {
    hide Carried;
    SumSingle(SentTo(g, d, x, group, c, g.cells[c].sides[s].cell), s, |g.cells[c].sides|);
  }

  lemma SentBack(g: Grid, d: Slice, x: seq<real>, group: nat -> bool, c: nat, other: nat)
    requires d.dOmega > 0.0 && ValidGrid(g) && Paired(g, d) && c < |x| == |g.cells| && other < |x|
    ensures Sent(g, d, x, group)(other, c) == -Sent(g, d, x, group)(c, other)
  {
    hide Carried;
    if s: nat :| s < |g.cells[c].sides| && g.cells[c].sides[s].Shared? && g.cells[c].sides[s].cell == other
                 && group(c) && group(other) {
      var t: nat :| Faces(g, d, c, s, t);
      SentOnce(g, d, x, group, c, s);
      SentOnce(g, d, x, group, other, t);
      FacesCancel(g, d, x, c, s, t);
    } else {
      SumZero(SentTo(g, d, x, group, c, other), |g.cells[c].sides|);
      forall t: nat | t < |g.cells[other].sides| ensures SentTo(g, d, x, group, other, c)(t) == 0.0 {}
      SumZero(SentTo(g, d, x, group, other, c), |g.cells[other].sides|);
    }
  }

  /** Exchange within the group cancels. */
  lemma ExchangeCancels(t: (nat, nat) -> real, n: nat)
    requires forall a: nat, b: nat :: a < n && b < n ==> t(b, a) == -t(a, b)
    ensures Sum(RowSums(t, n), n) == 0.0
  {
    SwapSums(t, n, n);
    forall a: nat | a < n ensures ColumnSums(t, n)(a) == -1.0 * RowSums(t, n)(a) {
      forall b: nat | b < n ensures Forms.ColumnOf(t, a)(b) == -1.0 * RowOf(t, a)(b) {}
      SumScale(RowOf(t, a), -1.0, Forms.ColumnOf(t, a), n);
    }
    SumScale(RowSums(t, n), -1.0, ColumnSums(t, n), n);
  }

  /** Energy that leaves the group through a side of cell c. */
  function Leaving(g: Grid, d: Slice, x: seq<real>, group: nat -> bool, c: nat): nat -> real
    requires d.dOmega > 0.0 && c < |x| == |g.cells|
  {
    (s: nat) => if s < |g.cells[c].sides| && group(c)
                   && !(g.cells[c].sides[s].Shared? && g.cells[c].sides[s].cell < |g.cells|
                        && group(g.cells[c].sides[s].cell)) then Carried(g, d, x, c)(s) else 0.0
  }

  /** What relaxation and heat source supply to cell c. */
  function Supplied(g: Grid, e: seq<real>, x: seq<real>, group: nat -> bool): nat -> real
    requires |e| == |x| == |g.cells|
    requires forall c :: 0 <= c < |g.cells| ==> g.cells[c].relaxation > 0.0 && g.cells[c].capacity > 0.0
  {
    (c: nat) => if c < |g.cells| && group(c) then
        var cell := g.cells[c];
        cell.volume * (e[c] - x[c]) / cell.relaxation + cell.volume * cell.heat / cell.capacity
      else 0.0
  }

  function LeavingGroup(g: Grid, d: Slice, x: seq<real>, group: nat -> bool): nat -> real
    requires d.dOmega > 0.0 && |x| == |g.cells|
  {
    (c: nat) => if c < |g.cells| then Sum(Leaving(g, d, x, group, c), |g.cells[c].sides|) else 0.0
  }

  function BySide(g: Grid, d: Slice, x: seq<real>, group: nat -> bool, c: nat): (nat, nat) -> real
    requires d.dOmega > 0.0 && c < |x| == |g.cells|
  {
    (s: nat, other: nat) => SentTo(g, d, x, group, c, other)(s)
  }

  /** A cell of the group: its flow leaves the group or goes to its neighbours there. */
  lemma CellSplits(g: Grid, d: Slice, x: seq<real>, group: nat -> bool, c: nat)
    requires d.dOmega > 0.0 && ValidGrid(g) && c < |x| == |g.cells| && group(c)
    ensures Sum(Carried(g, d, x, c), |g.cells[c].sides|)
      == Sum(Leaving(g, d, x, group, c), |g.cells[c].sides|) + RowSums(Sent(g, d, x, group), |g.cells|)(c)
  {
    hide Carried, Sum;
    var n, m, t := |g.cells[c].sides|, |g.cells|, BySide(g, d, x, group, c);
    forall s: nat | s < n ensures Carried(g, d, x, c)(s) == Leaving(g, d, x, group, c)(s) + RowSums(t, m)(s) {
      SideSplits(g, d, x, group, c, s);
    }
    SumPlus(Leaving(g, d, x, group, c), RowSums(t, m), Carried(g, d, x, c), n);
    SwapSums(t, n, m);
    forall other: nat | other < m ensures ColumnSums(t, n)(other) == RowOf(Sent(g, d, x, group), c)(other) {
      SumEqual(Forms.ColumnOf(t, other), SentTo(g, d, x, group, c, other), n);
    }
    SumEqual(ColumnSums(t, n), RowOf(Sent(g, d, x, group), c), m);
  }

  lemma SideSplits(g: Grid, d: Slice, x: seq<real>, group: nat -> bool, c: nat, s: nat)
    requires d.dOmega > 0.0 && ValidGrid(g) && c < |x| == |g.cells| && group(c) && s < |g.cells[c].sides|
    ensures Carried(g, d, x, c)(s)
      == Leaving(g, d, x, group, c)(s) + Sum(RowOf(BySide(g, d, x, group, c), s), |g.cells|)
  {
    hide Carried, Sum;
    var side, f := g.cells[c].sides[s], RowOf(BySide(g, d, x, group, c), s);
    var stays := side.Shared? && group(side.cell);
    forall other: nat
      ensures f(other) == if stays && other == side.cell then Carried(g, d, x, c)(s) else 0.0
    {
      assert f(other) == SentTo(g, d, x, group, c, other)(s);
    }
    if stays { SumSingle(f, side.cell, |g.cells|); } else { SumZero(f, |g.cells|); }
  }

  lemma OutsideSplits(g: Grid, d: Slice, x: seq<real>, group: nat -> bool, c: nat)
    requires d.dOmega > 0.0 && ValidGrid(g) && c < |x| == |g.cells| && !group(c)
    ensures Sum(Leaving(g, d, x, group, c), |g.cells[c].sides|) == 0.0
    ensures RowSums(Sent(g, d, x, group), |g.cells|)(c) == 0.0
  {
    hide Carried, Sum;
    SumZero(Leaving(g, d, x, group, c), |g.cells[c].sides|);
    forall other: nat | other < |g.cells| ensures RowOf(Sent(g, d, x, group), c)(other) == 0.0 {
      SumZero(SentTo(g, d, x, group, c, other), |g.cells[c].sides|);
    }
    SumZero(RowOf(Sent(g, d, x, group), c), |g.cells|);
  }

  /** Balance of any group of cells that no boundary side flows into: what leaves the group is what relaxation
      and heat sources supply in it. */
  lemma GroupBalance(g: Grid, d: Slice, e: seq<real>, supply: seq<real>, bnd: nat -> real, rows: seq<Row>, x: seq<real>,
                     group: nat -> bool)
    requires d.dOmega > 0.0 && ValidGrid(g) && Paired(g, d) && |x| == |g.cells| == |e| == |supply|
    requires forall c :: 0 <= c < |g.cells| ==> g.cells[c].relaxation > 0.0 && g.cells[c].capacity > 0.0
    requires forall c: nat :: c < |g.cells| && group(c) ==> Interior(g, d, c)
    requires forall c :: 0 <= c < |e| ==> supply[c] == g.cells[c].Supply(e[c])
    requires AreRows(g, d, supply, bnd, rows) && Solves(g, rows, x)
    ensures Sum(LeavingGroup(g, d, x, group), |g.cells|) == Sum(Supplied(g, e, x, group), |g.cells|)
  {
    var n, t := |g.cells|, Sent(g, d, x, group);
    hide Sum, AreRows, Solves, Interior, Sent, Supplied, LeavingGroup, Paired, ValidGrid, RowSums;
    forall c: nat | c < n
      ensures Supplied(g, e, x, group)(c) == LeavingGroup(g, d, x, group)(c) + RowSums(t, n)(c)
    {
      OneCell(g, d, e, supply, bnd, rows, x, group, c);
    }
    forall a: nat, b: nat | a < n && b < n ensures t(b, a) == -t(a, b) { SentBack(g, d, x, group, a, b); }
    SumPlus(LeavingGroup(g, d, x, group), RowSums(t, n), Supplied(g, e, x, group), n);
    ExchangeCancels(t, n);
  }

  lemma OneCell(g: Grid, d: Slice, e: seq<real>, supply: seq<real>, bnd: nat -> real, rows: seq<Row>, x: seq<real>,
                group: nat -> bool, c: nat)
    requires d.dOmega > 0.0 && ValidGrid(g) && c < |x| == |g.cells| == |e| == |supply|
    requires forall c :: 0 <= c < |g.cells| ==> g.cells[c].relaxation > 0.0 && g.cells[c].capacity > 0.0
    requires group(c) ==> Interior(g, d, c)
    requires supply[c] == g.cells[c].Supply(e[c]) && AreRows(g, d, supply, bnd, rows) && Solves(g, rows, x)
    ensures Supplied(g, e, x, group)(c)
      == LeavingGroup(g, d, x, group)(c) + RowSums(Sent(g, d, x, group), |g.cells|)(c)
  {
    hide Carried, Leaving, Sum, AreRows, Solves, Interior, Sent, ValidGrid, RowSums;
    if group(c) {
      KineticBalance(g, d, e, supply, bnd, rows, x, c);
      CellSplits(g, d, x, group, c);
    } else {
      OutsideSplits(g, d, x, group, c);
    }
  }
}
