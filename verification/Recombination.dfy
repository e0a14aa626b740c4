/** Net recombination: the rates and derivatives of all models are summed carrier by carrier. */
module Recombination {
  import opened Calculus
  import opened Forms

  /** A model names the carriers it acts on; its rates and derivatives are indexed by carrier,
      the last column of the derivatives belongs to the electric potential. */
  datatype Model = Model(carriers: seq<nat>, rates: seq<real>, slopes: seq<seq<real>>)

  ghost predicate ValidModel(n: nat, m: Model) {
    && |m.rates| == |m.slopes| == n
    && (forall i :: 0 <= i < n ==> |m.slopes[i]| == n + 1)
    && forall t :: 0 <= t < |m.carriers| ==> m.carriers[t] < n
  }

  datatype Cell = Cell(row: nat, col: nat)

  // ---------------------------------------------------------------------------------------
  // What the models add

  function RateAdd(n: nat, m: Model): nat -> seq<Add<nat>>
    requires ValidModel(n, m)
  {
    (t: nat) => if t < |m.carriers| then [Add(m.carriers[t], m.rates[m.carriers[t]])] else []
  }

  function RateAdds(n: nat, models: seq<Model>): nat -> seq<Add<nat>>
    requires forall k :: 0 <= k < |models| ==> ValidModel(n, models[k])
  {
    (k: nat) => if k < |models| then Flat(RateAdd(n, models[k]), |models[k].carriers|) else []
  }

  /** Column of the u-th listed carrier; one more for the potential. */
  function Column(n: nat, m: Model, u: nat): (c: nat)
    requires ValidModel(n, m) && u <= |m.carriers|
    ensures c <= n
  {
    if u == |m.carriers| then n else m.carriers[u]
  }

  function SlopeAdd(n: nat, m: Model, t: nat): nat -> seq<Add<Cell>>
    requires ValidModel(n, m) && t < |m.carriers|
  {
    (u: nat) => if u <= |m.carriers| then
        [Add(Cell(m.carriers[t], Column(n, m, u)), m.slopes[m.carriers[t]][Column(n, m, u)])]
      else []
  }

  function SlopeRow(n: nat, m: Model): nat -> seq<Add<Cell>>
    requires ValidModel(n, m)
  {
    (t: nat) => if t < |m.carriers| then Flat(SlopeAdd(n, m, t), |m.carriers| + 1) else []
  }

  function SlopeAdds(n: nat, models: seq<Model>): nat -> seq<Add<Cell>>
    requires forall k :: 0 <= k < |models| ==> ValidModel(n, models[k])
  {
    (k: nat) => if k < |models| then Flat(SlopeRow(n, models[k]), |models[k].carriers|) else []
  }

  function Here(g: nat, j: nat): Cell -> real {
    (c: Cell) => if c == Cell(g, j) then 1.0 else 0.0
  }

  ghost predicate Rates(rate: seq<real>, adds: seq<Add<nat>>) {
    forall i: nat :: i < |rate| ==> rate[i] == Entry(adds, i)
  }

  ghost predicate Slopes(slope: array2<real>, adds: seq<Add<Cell>>)
    reads slope
  {
    forall i: nat, j: nat :: i < slope.Length0 && j < slope.Length1 ==> slope[i, j] == Dot(adds, Here(i, j))
  }

  // ---------------------------------------------------------------------------------------
  // The loops

  method AddRate(rate: array<real>, c: nat, v: real, ghost adds: seq<Add<nat>>)
    requires c < rate.Length && Rates(rate[..], adds)
    modifies rate
    ensures Rates(rate[..], adds + [Add(c, v)])
  {
    hide Entry;
    forall i: nat ensures Entry(adds + [Add(c, v)], i) == Entry(adds, i) + (if c == i then v else 0.0) {
      EntryAppend(adds, Add(c, v), i);
    }
    rate[c] := rate[c] + v;
  }

  method AddSlope(slope: array2<real>, c: nat, j: nat, v: real, ghost adds: seq<Add<Cell>>)
    requires c < slope.Length0 && j < slope.Length1 && Slopes(slope, adds)
    modifies slope
    ensures Slopes(slope, adds + [Add(Cell(c, j), v)])
  {
    hide Dot;
    forall r: nat, s: nat
      ensures Dot(adds + [Add(Cell(c, j), v)], Here(r, s))
        == Dot(adds, Here(r, s)) + (if r == c && s == j then v else 0.0)
    {
      DotAppend(adds, Add(Cell(c, j), v), Here(r, s));
    }
    slope[c, j] := slope[c, j] + v;
  }

  /** Row of one listed carrier: a column per listed carrier, then the potential's. */
  method AddRow(n: nat, m: Model, t: nat, slope: array2<real>, ghost adds: seq<Add<Cell>>)
    requires ValidModel(n, m) && t < |m.carriers| && slope.Length0 == n && slope.Length1 == n + 1 && Slopes(slope, adds)
    modifies slope
    ensures Slopes(slope, adds + SlopeRow(n, m)(t))
  {
    hide Slopes, Flat;
    var c := m.carriers[t];
    ghost var list := SlopeAdd(n, m, t);
    FlatNone(adds, list);
    for u := 0 to |m.carriers|
      invariant Slopes(slope, adds + Flat(list, u))
    {
      FlatNext(adds, list, u);
      SlopeAddAt(n, m, t, u);
      AddSlope(slope, c, m.carriers[u], m.slopes[c][m.carriers[u]], adds + Flat(list, u));
    }
    FlatNext(adds, list, |m.carriers|);
    SlopeAddAt(n, m, t, |m.carriers|);
    AddSlope(slope, c, n, m.slopes[c][n], adds + Flat(list, |m.carriers|));
  }

  lemma SlopeAddAt(n: nat, m: Model, t: nat, u: nat)
    requires ValidModel(n, m) && t < |m.carriers| && u <= |m.carriers|
    ensures SlopeAdd(n, m, t)(u)
         == [Add(Cell(m.carriers[t], Column(n, m, u)), m.slopes[m.carriers[t]][Column(n, m, u)])]
  {}

  method AddModel(n: nat, m: Model, rate: array<real>, slope: array2<real>, ghost adds: seq<Add<nat>>,
                  ghost cells: seq<Add<Cell>>)
    requires ValidModel(n, m) && rate.Length == n && slope.Length0 == n && slope.Length1 == n + 1
    requires Rates(rate[..], adds) && Slopes(slope, cells)
    modifies rate, slope
    ensures Rates(rate[..], adds + Flat(RateAdd(n, m), |m.carriers|))
    ensures Slopes(slope, cells + Flat(SlopeRow(n, m), |m.carriers|))
  {
    hide Rates, Slopes, Flat, SlopeRow;
    FlatNone(adds, RateAdd(n, m));
    FlatNone(cells, SlopeRow(n, m));
    for t := 0 to |m.carriers|
      invariant Rates(rate[..], adds + Flat(RateAdd(n, m), t))
      invariant Slopes(slope, cells + Flat(SlopeRow(n, m), t))
    {
      FlatNext(adds, RateAdd(n, m), t);
      FlatNext(cells, SlopeRow(n, m), t);
      AddRate(rate, m.carriers[t], m.rates[m.carriers[t]], adds + Flat(RateAdd(n, m), t));
      AddRow(n, m, t, slope, cells + Flat(SlopeRow(n, m), t));
    }
  }

  /** Net rates and derivatives of all carriers. */
  method NetRates(n: nat, models: seq<Model>, rate: array<real>, slope: array2<real>)
    requires forall k :: 0 <= k < |models| ==> ValidModel(n, models[k])
    requires rate.Length == n && slope.Length0 == n && slope.Length1 == n + 1
    modifies rate, slope
    ensures Rates(rate[..], Flat(RateAdds(n, models), |models|))
    ensures Slopes(slope, Flat(SlopeAdds(n, models), |models|))
  {
    hide Rates, Slopes, Flat, RateAdd, SlopeRow;
    ghost var adds, cells := RateAdds(n, models), SlopeAdds(n, models);
    ClearRates(rate);
    ClearSlopes(slope);
    FlatNone([], adds);
    FlatNone([], cells);
    for k := 0 to |models|
      invariant Rates(rate[..], [] + Flat(adds, k))
      invariant Slopes(slope, [] + Flat(cells, k))
    {
      FlatNext([], adds, k);
      FlatNext([], cells, k);
      AddModel(n, models[k], rate, slope, [] + Flat(adds, k), [] + Flat(cells, k));
    }
    assert [] + Flat(adds, |models|) == Flat(adds, |models|) && [] + Flat(cells, |models|) == Flat(cells, |models|);
  }

  method ClearRates(rate: array<real>)
    modifies rate
    ensures Rates(rate[..], [])
  {
    for i := 0 to rate.Length
      invariant forall r :: 0 <= r < i ==> rate[r] == 0.0
    {
      rate[i] := 0.0;
    }
  }

  method ClearSlopes(slope: array2<real>)
    modifies slope
    ensures Slopes(slope, [])
  {
    for i := 0 to slope.Length0
      invariant forall r, c :: 0 <= r < i && 0 <= c < slope.Length1 ==> slope[r, c] == 0.0
    {
      for j := 0 to slope.Length1
        invariant forall r, c :: 0 <= r < i && 0 <= c < slope.Length1 ==> slope[r, c] == 0.0
        invariant forall c :: 0 <= c < j ==> slope[i, c] == 0.0
      {
        slope[i, j] := 0.0;
      }
    }
  }

  // ---------------------------------------------------------------------------------------
  // Conservation of charge

  /** Charge a model creates, q being the carriers' charges. */
  function ModelCharge(n: nat, m: Model, q: nat -> real): real
    requires ValidModel(n, m)
  {
    Sum(ChargeOf(n, m, q), |m.carriers|)
  }

  function ChargeOf(n: nat, m: Model, q: nat -> real): nat -> real
    requires ValidModel(n, m)
  {
    (t: nat) => if t < |m.carriers| then q(m.carriers[t]) * m.rates[m.carriers[t]] else 0.0
  }

  function Charges(q: nat -> real, rate: seq<real>): nat -> real {
    (i: nat) => if i < |rate| then q(i) * rate[i] else 0.0
  }

  lemma ModelCharged(n: nat, m: Model, q: nat -> real)
    requires ValidModel(n, m)
    ensures Dot(Flat(RateAdd(n, m), |m.carriers|), q) == ModelCharge(n, m, q)
  {
    hide Flat, Sum, Dot;
    DotFlat(RateAdd(n, m), |m.carriers|, q);
    forall t: nat | t < |m.carriers| ensures DotOf(RateAdd(n, m), q)(t) == ChargeOf(n, m, q)(t) {
      DotSingle(Add(m.carriers[t], m.rates[m.carriers[t]]), q);
    }
    SumEqual(DotOf(RateAdd(n, m), q), ChargeOf(n, m, q), |m.carriers|);
  }

  lemma ModelRatesBelow(n: nat, m: Model)
    requires ValidModel(n, m)
    ensures PlacesBelow(Flat(RateAdd(n, m), |m.carriers|), n)
  {
    hide Flat;
    forall t: nat | t < |m.carriers| ensures PlacesBelow(RateAdd(n, m)(t), n) {}
    FlatBelow(RateAdd(n, m), |m.carriers|, n);
  }

  lemma RatesBelow(n: nat, models: seq<Model>)
    requires forall k :: 0 <= k < |models| ==> ValidModel(n, models[k])
    ensures PlacesBelow(Flat(RateAdds(n, models), |models|), n)
  {
    hide Flat, PlacesBelow, RateAdd;
    forall k: nat | k < |models| ensures PlacesBelow(RateAdds(n, models)(k), n) {
      ModelRatesBelow(n, models[k]);
    }
    hide RateAdds;
    FlatBelow(RateAdds(n, models), |models|, n);
  }

  /** If no model creates charge, neither does the net rate. */
  lemma NetRateConservesCharge(n: nat, models: seq<Model>, q: nat -> real, rate: seq<real>)
    requires forall k :: 0 <= k < |models| ==> ValidModel(n, models[k]) && ModelCharge(n, models[k], q) == 0.0
    requires |rate| == n && Rates(rate, Flat(RateAdds(n, models), |models|))
    ensures Sum(Charges(q, rate), n) == 0.0
  {
    hide Flat, Entry, Dot, Sum, ModelCharge, RateAdd;
    var adds := Flat(RateAdds(n, models), |models|);
    RatesBelow(n, models);
    EntriesDetermineForm(adds, q, n);
    SumEqual(Charges(q, rate), Weighted(adds, q), n);
    DotFlat(RateAdds(n, models), |models|, q);
    forall k: nat | k < |models| ensures DotOf(RateAdds(n, models), q)(k) == 0.0 {
      ModelCharged(n, models[k], q);
    }
    SumZero(DotOf(RateAdds(n, models), q), |models|);
  }

  // ---------------------------------------------------------------------------------------
  // Gauge: rows that sum to zero

  /** Sum of row c of a model over its own carriers and the potential. */
  function ModelRow(n: nat, m: Model, c: nat): real
    requires ValidModel(n, m) && c < n
  {
    Sum(RowOfModel(n, m, c), |m.carriers| + 1)
  }

  function RowOfModel(n: nat, m: Model, c: nat): nat -> real
    requires ValidModel(n, m) && c < n
  {
    (u: nat) => if u <= |m.carriers| then m.slopes[c][Column(n, m, u)] else 0.0
  }

  function InRow(i: nat): Cell -> real {
    (c: Cell) => if c.row == i then 1.0 else 0.0
  }

  function RowEntries(adds: seq<Add<Cell>>, i: nat): nat -> real {
    (j: nat) => Dot(adds, Here(i, j))
  }

  ghost predicate ColumnsBelow(adds: seq<Add<Cell>>, n: nat) {
    forall t :: 0 <= t < |adds| ==> adds[t].at.col < n
  }

  /** Summing a row of the matrix is testing with the row's indicator. */
  lemma {:induction false} RowTested(adds: seq<Add<Cell>>, i: nat, n: nat)
    requires ColumnsBelow(adds, n)
    ensures Sum(RowEntries(adds, i), n) == Dot(adds, InRow(i))
  {
    if adds == [] {
      SumZero(RowEntries(adds, i), n);
    } else {
      var rest, last := adds[..|adds| - 1], adds[|adds| - 1];
      RowTested(rest, i, n);
      assert adds == rest + [last];
      var one := Spike(last.at.col, if last.at.row == i then last.val else 0.0);
      SumSingle(one, last.at.col, n);
      forall j: nat | j < n ensures RowEntries(adds, i)(j) == RowEntries(rest, i)(j) + one(j) {
        DotAppend(rest, last, Here(i, j));
      }
      hide Dot;
      DotAppend(rest, last, InRow(i));
      SumPlus(RowEntries(rest, i), one, RowEntries(adds, i), n);
    }
  }

  lemma {:induction false} FlatColumns(f: nat -> seq<Add<Cell>>, m: nat, n: nat)
    requires forall t: nat :: t < m ==> ColumnsBelow(f(t), n)
    ensures ColumnsBelow(Flat(f, m), n)
  {
    if m > 0 { FlatColumns(f, m - 1, n); }
  }

  lemma RowBelow(n: nat, m: Model, t: nat)
    requires ValidModel(n, m) && t < |m.carriers|
    ensures ColumnsBelow(SlopeRow(n, m)(t), n + 1)
  {
    hide Flat;
    forall u: nat | u < |m.carriers| + 1 ensures ColumnsBelow(SlopeAdd(n, m, t)(u), n + 1) {
      SlopeAddAt(n, m, t, u);
    }
    FlatColumns(SlopeAdd(n, m, t), |m.carriers| + 1, n + 1);
  }

  lemma SlopesBelow(n: nat, models: seq<Model>)
    requires forall k :: 0 <= k < |models| ==> ValidModel(n, models[k])
    ensures ColumnsBelow(Flat(SlopeAdds(n, models), |models|), n + 1)
  {
    hide Flat, SlopeRow, ColumnsBelow;
    forall k: nat | k < |models| ensures ColumnsBelow(SlopeAdds(n, models)(k), n + 1) {
      var m := models[k];
      forall t: nat | t < |m.carriers| ensures ColumnsBelow(SlopeRow(n, m)(t), n + 1) {
        RowBelow(n, m, t);
      }
      FlatColumns(SlopeRow(n, m), |m.carriers|, n + 1);
    }
    hide SlopeAdds;
    FlatColumns(SlopeAdds(n, models), |models|, n + 1);
  }

  lemma RowOfCarrier(n: nat, m: Model, t: nat, i: nat)
    requires ValidModel(n, m) && t < |m.carriers|
    ensures Dot(SlopeRow(n, m)(t), InRow(i)) == if m.carriers[t] == i then ModelRow(n, m, i) else 0.0
  {
    hide Flat, Sum, Dot;
    var f, c := SlopeAdd(n, m, t), m.carriers[t];
    DotFlat(f, |m.carriers| + 1, InRow(i));
    forall u: nat | u < |m.carriers| + 1
      ensures DotOf(f, InRow(i))(u) == if c == i then RowOfModel(n, m, c)(u) else 0.0
    {
      SlopeAddAt(n, m, t, u);
      DotSingle(Add(Cell(c, Column(n, m, u)), m.slopes[c][Column(n, m, u)]), InRow(i));
    }
    if c == i {
      SumEqual(DotOf(f, InRow(i)), RowOfModel(n, m, c), |m.carriers| + 1);
    } else {
      SumZero(DotOf(f, InRow(i)), |m.carriers| + 1);
    }
  }

  ghost predicate NeutralRows(n: nat, m: Model)
    requires ValidModel(n, m)
  {
    forall c: nat :: c < n && c in m.carriers ==> ModelRow(n, m, c) == 0.0
  }

  /** If the rows of every model sum to zero, so do the rows of the sum. */
  lemma NetSlopesAreNeutral(n: nat, models: seq<Model>, i: nat)
    requires i < n && forall k :: 0 <= k < |models| ==> ValidModel(n, models[k]) && NeutralRows(n, models[k])
    ensures Sum(RowEntries(Flat(SlopeAdds(n, models), |models|), i), n + 1) == 0.0
  {
    hide Flat, Dot, Sum, SlopeRow, ModelRow;
    SlopesBelow(n, models);
    RowTested(Flat(SlopeAdds(n, models), |models|), i, n + 1);
    DotFlat(SlopeAdds(n, models), |models|, InRow(i));
    forall k: nat | k < |models| ensures DotOf(SlopeAdds(n, models), InRow(i))(k) == 0.0 {
      var m := models[k];
      DotFlat(SlopeRow(n, m), |m.carriers|, InRow(i));
      forall t: nat | t < |m.carriers| ensures DotOf(SlopeRow(n, m), InRow(i))(t) == 0.0 {
        RowOfCarrier(n, m, t, i);
        assert m.carriers[t] in m.carriers;
      }
      SumZero(DotOf(SlopeRow(n, m), InRow(i)), |m.carriers|);
    }
    SumZero(DotOf(SlopeAdds(n, models), InRow(i)), |models|);
  }

  // ---------------------------------------------------------------------------------------
  // The net values, model by model

  ghost predicate ListsOnce(m: Model) {
    forall t, u :: 0 <= t < u < |m.carriers| ==> m.carriers[t] != m.carriers[u]
  }

  /** What model k contributes to the rate of carrier c: its own rate, if it acts on the carrier. */
  function RateFrom(models: seq<Model>, c: nat): nat -> real {
    (k: nat) => if k < |models| && c in models[k].carriers && c < |models[k].rates| then models[k].rates[c] else 0.0
  }

  lemma ModelRate(n: nat, m: Model, c: nat)
    requires ValidModel(n, m) && ListsOnce(m) && c < n
    ensures ModelCharge(n, m, Delta(c)) == if c in m.carriers then m.rates[c] else 0.0
  {
    var f := ChargeOf(n, m, Delta(c));
    if c in m.carriers {
      var t: nat :| t < |m.carriers| && m.carriers[t] == c;
      forall u: nat | u < |m.carriers| && u != t ensures f(u) == 0.0 {}
      SumSingle(f, t, |m.carriers|);
    } else {
      SumZero(f, |m.carriers|);
    }
  }

  /** The net rate of a carrier is the sum of the rates of all models that act on it. */
  lemma NetRateIsSum(n: nat, models: seq<Model>, rate: seq<real>, c: nat)
    requires forall k :: 0 <= k < |models| ==> ValidModel(n, models[k]) && ListsOnce(models[k])
    requires |rate| == n && c < n && Rates(rate, Flat(RateAdds(n, models), |models|))
    ensures rate[c] == Sum(RateFrom(models, c), |models|)
  {
    hide Flat, Dot, Sum, ModelCharge, RateAdd;
    DotFlat(RateAdds(n, models), |models|, Delta(c));
    forall k: nat | k < |models| ensures DotOf(RateAdds(n, models), Delta(c))(k) == RateFrom(models, c)(k) {
      ModelCharged(n, models[k], Delta(c));
      ModelRate(n, models[k], c);
    }
    SumEqual(DotOf(RateAdds(n, models), Delta(c)), RateFrom(models, c), |models|);
  }

  /** What model k contributes to the derivative of carrier r's rate with respect to unknown s. */
  function SlopeFrom(n: nat, models: seq<Model>, r: nat, s: nat): nat -> real {
    (k: nat) => if k < |models| && r in models[k].carriers && (s in models[k].carriers || s == n)
                   && r < |models[k].slopes| && s < |models[k].slopes[r]| then models[k].slopes[r][s] else 0.0
  }

  /** One row of a model. */
  lemma ModelSlopeRow(n: nat, m: Model, t: nat, r: nat, s: nat)
    requires ValidModel(n, m) && ListsOnce(m) && t < |m.carriers| && r < n && s <= n
    ensures Dot(Flat(SlopeAdd(n, m, t), |m.carriers| + 1), Here(r, s))
      == if m.carriers[t] == r && (s in m.carriers || s == n) then m.slopes[r][s] else 0.0
  {
    hide Flat, Dot, Sum;
    var f := SlopeAdd(n, m, t);
    DotFlat(f, |m.carriers| + 1, Here(r, s));
    forall u: nat | u <= |m.carriers|
      ensures DotOf(f, Here(r, s))(u) == if m.carriers[t] == r && Column(n, m, u) == s then m.slopes[r][s] else 0.0
    {
      SlopeAddAt(n, m, t, u);
      DotSingle(Add(Cell(m.carriers[t], Column(n, m, u)), m.slopes[m.carriers[t]][Column(n, m, u)]), Here(r, s));
    }
    if m.carriers[t] == r && (s in m.carriers || s == n) {
      var u: nat := |m.carriers|;
      if s != n { u :| u < |m.carriers| && m.carriers[u] == s; }
      ColumnsDiffer(n, m, u);
      SumSingle(DotOf(f, Here(r, s)), u, |m.carriers| + 1);
    } else {
      SumZero(DotOf(f, Here(r, s)), |m.carriers| + 1);
    }
  }

  lemma ColumnsDiffer(n: nat, m: Model, u: nat)
    requires ValidModel(n, m) && ListsOnce(m) && u <= |m.carriers|
    ensures forall w: nat :: w <= |m.carriers| && w != u ==> Column(n, m, w) != Column(n, m, u)
  {}

  lemma ModelSlope(n: nat, m: Model, r: nat, s: nat)
    requires ValidModel(n, m) && ListsOnce(m) && r < n && s <= n
    ensures Dot(Flat(SlopeRow(n, m), |m.carriers|), Here(r, s))
      == if r in m.carriers && (s in m.carriers || s == n) then m.slopes[r][s] else 0.0
  {
    hide Flat, Dot, Sum, SlopeAdd;
    var f := DotOf(SlopeRow(n, m), Here(r, s));
    DotFlat(SlopeRow(n, m), |m.carriers|, Here(r, s));
    forall t: nat | t < |m.carriers|
      ensures f(t) == if m.carriers[t] == r && (s in m.carriers || s == n) then m.slopes[r][s] else 0.0
    {
      ModelSlopeRow(n, m, t, r, s);
    }
    if r in m.carriers {
      var t: nat :| t < |m.carriers| && m.carriers[t] == r;
      SumSingle(f, t, |m.carriers|);
    } else {
      SumZero(f, |m.carriers|);
    }
  }

  /** The net derivative is the sum of the derivatives of all models that act on the carrier. */
  lemma NetSlopeIsSum(n: nat, models: seq<Model>, slope: array2<real>, r: nat, s: nat)
    requires forall k :: 0 <= k < |models| ==> ValidModel(n, models[k]) && ListsOnce(models[k])
    requires slope.Length0 == n && slope.Length1 == n + 1 && r < n && s <= n
    requires Slopes(slope, Flat(SlopeAdds(n, models), |models|))
    ensures slope[r, s] == Sum(SlopeFrom(n, models, r, s), |models|)
  {
    hide Flat, Dot, Sum, SlopeRow;
    DotFlat(SlopeAdds(n, models), |models|, Here(r, s));
    forall k: nat | k < |models| ensures DotOf(SlopeAdds(n, models), Here(r, s))(k) == SlopeFrom(n, models, r, s)(k) {
      ModelSlope(n, models[k], r, s);
    }
    SumEqual(DotOf(SlopeAdds(n, models), Here(r, s)), SlopeFrom(n, models, r, s), |models|);
  }
}
