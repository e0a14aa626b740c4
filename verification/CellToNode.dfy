/** Transfer of cell values to the nodes: every cell adds its value, divided by the number of
    cells meeting at the node, to each of its nodes. */
module CellToNode {
  import opened Calculus
  import opened Forms

  /** Cells given by their nodes. */
  type Cells = seq<seq<nat>>

  ghost predicate ValidCells(nodes: nat, cells: Cells) {
    forall e, i :: 0 <= e < |cells| && 0 <= i < |cells[e]| ==> cells[e][i] < nodes
  }

  // ---------------------------------------------------------------------------------------
  // Counting

  function One(cell: seq<nat>): nat -> seq<Add<nat>> {
    (i: nat) => if i < |cell| then [Add(cell[i], 1.0)] else []
  }

  /** One count for every node of a cell. */
  function Ones(cells: Cells): nat -> seq<Add<nat>> {
    (e: nat) => if e < |cells| then Flat(One(cells[e]), |cells[e]|) else []
  }

  /** Number of cells meeting at a node. */
  function Connections(cells: Cells, n: nat): real {
    Entry(Flat(Ones(cells), |cells|), n)
  }

  ghost predicate Accumulated(a: seq<real>, adds: seq<Add<nat>>) {
    forall n: nat :: n < |a| ==> a[n] == Entry(adds, n)
  }

  method AddAt(a: array<real>, n: nat, v: real, ghost adds: seq<Add<nat>>)
    requires n < a.Length && Accumulated(a[..], adds)
    modifies a
    ensures Accumulated(a[..], adds + [Add(n, v)])
  {
    hide Entry;
    forall i: nat ensures Entry(adds + [Add(n, v)], i) == Entry(adds, i) + (if n == i then v else 0.0) {
      EntryAppend(adds, Add(n, v), i);
    }
    a[n] := a[n] + v;
  }

  method CountCell(cell: seq<nat>, conn: array<real>, ghost adds: seq<Add<nat>>)
    requires Accumulated(conn[..], adds) && forall i :: 0 <= i < |cell| ==> cell[i] < conn.Length
    modifies conn
    ensures Accumulated(conn[..], adds + Flat(One(cell), |cell|))
  {
    hide Accumulated, Flat;
    FlatNone(adds, One(cell));
    for i := 0 to |cell|
      invariant Accumulated(conn[..], adds + Flat(One(cell), i))
    {
      FlatNext(adds, One(cell), i);
      AddAt(conn, cell[i], 1.0, adds + Flat(One(cell), i));
    }
  }

  method CountConnections(nodes: nat, cells: Cells) returns (conn: array<real>)
    requires ValidCells(nodes, cells)
    ensures fresh(conn) && conn.Length == nodes
    ensures forall n: nat :: n < nodes ==> conn[n] == Connections(cells, n)
  {
    hide Accumulated, Flat, One, Entry;
    conn := new real[nodes](_ => 0.0);
    ghost var list := Ones(cells);
    NothingAccumulated(conn[..]);
    FlatNone([], list);
    for e := 0 to |cells|
      invariant conn.Length == nodes && Accumulated(conn[..], [] + Flat(list, e))
    {
      FlatNext([], list, e);
      CountCell(cells[e], conn, [] + Flat(list, e));
    }
    assert [] + Flat(list, |cells|) == Flat(list, |cells|);
    AccumulatedAt(conn[..], Flat(list, |cells|));
  }

  lemma NothingAccumulated(a: seq<real>)
    requires forall n :: 0 <= n < |a| ==> a[n] == 0.0
    ensures Accumulated(a, [])
  {}

  lemma AccumulatedAt(a: seq<real>, adds: seq<Add<nat>>)
    requires Accumulated(a, adds)
    ensures forall n: nat :: n < |a| ==> a[n] == Entry(adds, n)
  {}

  // ---------------------------------------------------------------------------------------
  // Transfer

  /** The contributions of a cell; nodes of a visited cell are connected. */
  function CellShare(cells: Cells, e: nat, value: real): nat -> seq<Add<nat>>
    requires e < |cells|
  {
    (i: nat) => if i < |cells[e]| && Connections(cells, cells[e][i]) != 0.0 then
        [Add(cells[e][i], value / Connections(cells, cells[e][i]))]
      else []
  }

  function Shares(cells: Cells, values: seq<real>): nat -> seq<Add<nat>> {
    (e: nat) => if e < |cells| && e < |values| then Flat(CellShare(cells, e, values[e]), |cells[e]|) else []
  }

  /** Nodal value after visiting all cells. */
  function Nodal(cells: Cells, values: seq<real>, n: nat): real {
    Entry(Flat(Shares(cells, values), |cells|), n)
  }

  // Occurrences of a node

  function Hit(cell: seq<nat>, n: nat): nat -> real {
    (i: nat) => if i < |cell| && cell[i] == n then 1.0 else 0.0
  }

  /** How often a cell lists a node. */
  function Hits(cells: Cells, n: nat): nat -> real {
    (e: nat) => if e < |cells| then Sum(Hit(cells[e], n), |cells[e]|) else 0.0
  }

  lemma HitsNonNegative(cells: Cells, n: nat, e: nat)
    ensures Hits(cells, n)(e) >= 0.0
  {
    if e < |cells| { SumNonNegative(Hit(cells[e], n), |cells[e]|); }
  }

  /** The connections of a node are its hits. */
  lemma ConnectionsAreHits(cells: Cells, n: nat)
    ensures Connections(cells, n) == Sum(Hits(cells, n), |cells|)
  {
    hide Flat, Sum, Dot;
    DotFlat(Ones(cells), |cells|, Delta(n));
    forall e: nat | e < |cells| ensures DotOf(Ones(cells), Delta(n))(e) == Hits(cells, n)(e) {
      DotFlat(One(cells[e]), |cells[e]|, Delta(n));
      forall i: nat | i < |cells[e]| ensures DotOf(One(cells[e]), Delta(n))(i) == Hit(cells[e], n)(i) {
        DotSingle(Add(cells[e][i], 1.0), Delta(n));
      }
      SumEqual(DotOf(One(cells[e]), Delta(n)), Hit(cells[e], n), |cells[e]|);
    }
    SumEqual(DotOf(Ones(cells), Delta(n)), Hits(cells, n), |cells|);
  }

  lemma HitConnects(cells: Cells, e: nat, i: nat)
    requires e < |cells| && i < |cells[e]|
    ensures Connections(cells, cells[e][i]) >= 1.0
  {
    var n := cells[e][i];
    SumAtLeast(Hit(cells[e], n), i, |cells[e]|);
    forall d: nat ensures Hits(cells, n)(d) >= 0.0 { HitsNonNegative(cells, n, d); }
    SumAtLeast(Hits(cells, n), e, |cells|);
    ConnectionsAreHits(cells, n);
  }

  method TransferCell(cells: Cells, e: nat, value: real, conn: array<real>, nodal: array<real>,
                      ghost adds: seq<Add<nat>>)
    requires ValidCells(nodal.Length, cells) && conn.Length == nodal.Length && conn != nodal && e < |cells|
    requires forall n: nat :: n < conn.Length ==> conn[n] == Connections(cells, n)
    requires Accumulated(nodal[..], adds)
    modifies nodal
    ensures Accumulated(nodal[..], adds + Flat(CellShare(cells, e, value), |cells[e]|))
  {
    hide Accumulated, Flat, Connections;
    ghost var list := CellShare(cells, e, value);
    FlatNone(adds, list);
    for i := 0 to |cells[e]|
      invariant Accumulated(nodal[..], adds + Flat(list, i))
    {
      FlatNext(adds, list, i);
      HitConnects(cells, e, i);
      AddAt(nodal, cells[e][i], value / conn[cells[e][i]], adds + Flat(list, i));
    }
  }

  method CellToNodal(nodes: nat, cells: Cells, values: seq<real>, conn: array<real>) returns (nodal: array<real>)
    requires ValidCells(nodes, cells) && |values| == |cells| && conn.Length == nodes
    requires forall n: nat :: n < nodes ==> conn[n] == Connections(cells, n)
    ensures fresh(nodal) && nodal.Length == nodes
    ensures forall n: nat :: n < nodes ==> nodal[n] == Nodal(cells, values, n)
  {
    hide Accumulated, Flat, Connections, CellShare, Entry;
    nodal := new real[nodes](_ => 0.0);
    ghost var list := Shares(cells, values);
    NothingAccumulated(nodal[..]);
    FlatNone([], list);
    for e := 0 to |cells|
      invariant nodal.Length == nodes && Accumulated(nodal[..], [] + Flat(list, e))
    {
      FlatNext([], list, e);
      TransferCell(cells, e, values[e], conn, nodal, [] + Flat(list, e));
    }
    assert [] + Flat(list, |cells|) == Flat(list, |cells|);
    AccumulatedAt(nodal[..], Flat(list, |cells|));
  }

  // ---------------------------------------------------------------------------------------
  // What the transfer means

  function ShareTerm(cells: Cells, values: seq<real>, n: nat): nat -> real {
    (e: nat) => if e < |cells| && e < |values| then Product(Hits(cells, n)(e), values[e]) else 0.0
  }

  lemma CellContribution(cells: Cells, e: nat, value: real, n: nat)
    requires e < |cells| && Connections(cells, n) > 0.0
    ensures Dot(Flat(CellShare(cells, e, value), |cells[e]|), Delta(n)) * Connections(cells, n)
         == Product(Hits(cells, n)(e), value)
  {
    hide Flat, Sum, Dot, Connections;
    var f, c := DotOf(CellShare(cells, e, value), Delta(n)), Connections(cells, n);
    DotFlat(CellShare(cells, e, value), |cells[e]|, Delta(n));
    forall i: nat | i < |cells[e]| ensures f(i) == value / c * Hit(cells[e], n)(i) {
      HitConnects(cells, e, i);
      DotSingle(Add(cells[e][i], value / Connections(cells, cells[e][i])), Delta(n));
      assert CellShare(cells, e, value)(i) == [Add(cells[e][i], value / Connections(cells, cells[e][i]))];
    }
    SumScale(Hit(cells[e], n), value / c, f, |cells[e]|);
    CancelQuotient(value, c, Sum(Hit(cells[e], n), |cells[e]|));
  }

  lemma CancelQuotient(v: real, c: real, h: real)
    requires c > 0.0
    ensures v / c * h * c == Product(h, v)
  {}

  /** Nodal value times connections is the sum of the meeting cells' values. */
  lemma NodalTotal(cells: Cells, values: seq<real>, n: nat)
    requires |values| == |cells| && Connections(cells, n) > 0.0
    ensures Nodal(cells, values, n) * Connections(cells, n) == Sum(ShareTerm(cells, values, n), |cells|)
  {
    hide Flat, Sum, Dot, Connections, CellShare, Hits;
    var f, c := DotOf(Shares(cells, values), Delta(n)), Connections(cells, n);
    DotFlat(Shares(cells, values), |cells|, Delta(n));
    forall e: nat | e < |cells| ensures ShareTerm(cells, values, n)(e) == c * f(e) {
      CellContribution(cells, e, values[e], n);
    }
    SumScale(f, c, ShareTerm(cells, values, n), |cells|);
  }

  /** A node lies between the extremes of the cells that meet there. */
  lemma NodalInRange(cells: Cells, values: seq<real>, n: nat, lo: real, hi: real)
    requires |values| == |cells| && Connections(cells, n) > 0.0
    requires forall e: nat :: e < |cells| && n in cells[e] ==> lo <= values[e] <= hi
    ensures lo <= Nodal(cells, values, n) <= hi
  {
    hide Nodal, Connections, Hits, ShareTerm, Sum;
    var f, w := ShareTerm(cells, values, n), Hits(cells, n);
    NodalTotal(cells, values, n);
    ConnectionsAreHits(cells, n);
    forall e: nat | e < |cells| ensures lo * w(e) <= f(e) <= hi * w(e) {
      TermBounds(cells, values, n, lo, hi, e);
    }
    SumBetween(f, w, |cells|, lo, hi);
    Cancel(lo, Nodal(cells, values, n), Connections(cells, n));
    Cancel(Nodal(cells, values, n), hi, Connections(cells, n));
  }

  lemma TermBounds(cells: Cells, values: seq<real>, n: nat, lo: real, hi: real, e: nat)
    requires |values| == |cells| && e < |cells| && (n in cells[e] ==> lo <= values[e] <= hi)
    ensures lo * Hits(cells, n)(e) <= ShareTerm(cells, values, n)(e) <= hi * Hits(cells, n)(e)
  {
    var w := Hits(cells, n)(e);
    if n in cells[e] {
      HitsNonNegative(cells, n, e);
      hide Hits;
      NonNegative(w, values[e] - lo);
      NonNegative(w, hi - values[e]);
    } else {
      SumZero(Hit(cells[e], n), |cells[e]|);
      hide Hits;
      assert w == 0.0;
      assert Product(w, values[e]) == 0.0;
    }
  }

  lemma {:induction false} SumBetween(f: nat -> real, w: nat -> real, n: nat, lo: real, hi: real)
    requires forall e: nat :: e < n ==> lo * w(e) <= f(e) <= hi * w(e)
    ensures lo * Sum(w, n) <= Sum(f, n) <= hi * Sum(w, n)
  {
    if n > 0 {
      SumBetween(f, w, n - 1, lo, hi);
      Distribute(lo, Sum(w, n - 1), w(n - 1));
      Distribute(hi, Sum(w, n - 1), w(n - 1));
    }
  }

  /** Constants are reproduced: the weights at a node sum to one. */
  lemma ConstantsReproduced(cells: Cells, values: seq<real>, n: nat, c: real)
    requires |values| == |cells| && Connections(cells, n) > 0.0 && forall e :: 0 <= e < |values| ==> values[e] == c
    ensures Nodal(cells, values, n) == c
  {
    hide Nodal, Connections;
    NodalInRange(cells, values, n, c, c);
  }

  // ---------------------------------------------------------------------------------------
  // Conservation

  function Lumped(cells: Cells, values: seq<real>): nat -> real {
    (n: nat) => Connections(cells, n) * Nodal(cells, values, n)
  }

  function CellTotal(cells: Cells, values: seq<real>): nat -> real {
    (e: nat) => if e < |cells| && e < |values| then |cells[e]| as real * values[e] else 0.0
  }

  function TermTable(cells: Cells, values: seq<real>): (nat, nat) -> real {
    (n: nat, e: nat) => ShareTerm(cells, values, n)(e)
  }

  function HitTable(cell: seq<nat>): (nat, nat) -> real {
    (n: nat, i: nat) => Hit(cell, n)(i)
  }

  function AtNode(cell: seq<nat>): nat -> real {
    (n: nat) => Sum(Hit(cell, n), |cell|)
  }

  /** Over all nodes a cell is hit once per listed node. */
  lemma HitsTotal(nodes: nat, cell: seq<nat>)
    requires forall i :: 0 <= i < |cell| ==> cell[i] < nodes
    ensures Sum(AtNode(cell), nodes) == |cell| as real
  {
    hide Sum;
    var t := HitTable(cell);
    forall n: nat | n < nodes ensures AtNode(cell)(n) == RowSums(t, |cell|)(n) {
      SumEqual(Hit(cell, n), RowOf(t, n), |cell|);
    }
    SumEqual(AtNode(cell), RowSums(t, |cell|), nodes);
    SwapSums(t, nodes, |cell|);
    forall i: nat | i < |cell| ensures ColumnSums(t, nodes)(i) == 1.0 {
      SumSingle(ColumnOf(t, i), cell[i], nodes);
    }
    CountOnes(ColumnSums(t, nodes), |cell|);
  }

  lemma {:induction false} CountOnes(f: nat -> real, n: nat)
    requires forall i: nat :: i < n ==> f(i) == 1.0
    ensures Sum(f, n) == n as real
  {
    if n > 0 { CountOnes(f, n - 1); }
  }

  lemma UnconnectedNode(cells: Cells, values: seq<real>, n: nat)
    requires |values| == |cells| && Connections(cells, n) <= 0.0
    ensures Sum(ShareTerm(cells, values, n), |cells|) == 0.0 && Connections(cells, n) == 0.0
  {
    ConnectionsAreHits(cells, n);
    forall e: nat ensures Hits(cells, n)(e) >= 0.0 { HitsNonNegative(cells, n, e); }
    SumNonNegative(Hits(cells, n), |cells|);
    forall e: nat | e < |cells| ensures ShareTerm(cells, values, n)(e) == 0.0 {
      assert Hits(cells, n)(e) == 0.0;
    }
    SumZero(ShareTerm(cells, values, n), |cells|);
  }

  lemma CellColumn(nodes: nat, cells: Cells, values: seq<real>, e: nat)
    requires ValidCells(nodes, cells) && |values| == |cells| && e < |cells|
    ensures ColumnSums(TermTable(cells, values), nodes)(e) == CellTotal(cells, values)(e)
  {
    hide Sum;
    HitsTotal(nodes, cells[e]);
    forall n: nat | n < nodes ensures ColumnOf(TermTable(cells, values), e)(n) == values[e] * AtNode(cells[e])(n) {
      TableEntry(cells, values, n, e);
    }
    hide TermTable, AtNode;
    SumScale(AtNode(cells[e]), values[e], ColumnOf(TermTable(cells, values), e), nodes);
  }

  lemma TableEntry(cells: Cells, values: seq<real>, n: nat, e: nat)
    requires |values| == |cells| && e < |cells|
    ensures ColumnOf(TermTable(cells, values), e)(n) == values[e] * AtNode(cells[e])(n)
  {
    hide Sum;
    assert Hits(cells, n)(e) == AtNode(cells[e])(n);
    assert ShareTerm(cells, values, n)(e) == Product(AtNode(cells[e])(n), values[e]);
  }

  /** The nodal total, weighted with the connections, is the cell total, weighted with the number
      of nodes. */
  lemma TotalConserved(nodes: nat, cells: Cells, values: seq<real>)
    requires ValidCells(nodes, cells) && |values| == |cells|
    ensures Sum(Lumped(cells, values), nodes) == Sum(CellTotal(cells, values), |cells|)
  {
    hide Nodal, Connections, Sum, ShareTerm, ValidCells;
    var t := TermTable(cells, values);
    forall n: nat | n < nodes ensures Lumped(cells, values)(n) == RowSums(t, |cells|)(n) {
      if Connections(cells, n) > 0.0 {
        NodalTotal(cells, values, n);
      } else {
        UnconnectedNode(cells, values, n);
      }
      SumEqual(ShareTerm(cells, values, n), RowOf(t, n), |cells|);
    }
    SumEqual(Lumped(cells, values), RowSums(t, |cells|), nodes);
    SwapSums(t, nodes, |cells|);
    forall e: nat | e < |cells| ensures ColumnSums(t, nodes)(e) == CellTotal(cells, values)(e) {
      CellColumn(nodes, cells, values, e);
    }
    SumEqual(ColumnSums(t, nodes), CellTotal(cells, values), |cells|);
  }
}
