/** What the terminal currents mean: they do not depend on the test function, the compact loop
    agrees with the global one, and they add up to zero. */
module RamoShockley {
  import opened Calculus
  import opened Forms
  import opened BoxMesh
  import opened TerminalCurrents

  // ---------------------------------------------------------------------------------------
  // Nodal balances

  /** Entry g of the total-current form vanishes at every free node. */
  ghost predicate SteadyAt(d: Device, free: nat -> bool)
    requires ValidDevice(d)
  {
    forall g: nat :: g < d.nodes && free(g) ==> Entry(CurrentForm(d), g) == 0.0
  }

  lemma PointBelow(d: Device, c: Cell, i: nat)
    requires ValidCell(c) && i < |c.points| && forall n :: 0 <= n < |c.nodes| ==> c.nodes[n] < d.nodes
    ensures PlacesBelow(PointAdds(d, c)(i), d.nodes)
  {
    hide GlobalValue, Flat;
    var q := c.points[i];
    forall n: nat | n < |c.nodes| ensures PlacesBelow(NodeAdds1(d, c, q)(n), d.nodes) {
      forall v: nat | v < |c.carriers| ensures PlacesBelow(CarrierAdds(d, c, q, n)(v), d.nodes) {
        CarrierAddsAt(d, c, q, n, v);
      }
      FlatBelow(CarrierAdds(d, c, q, n), |c.carriers|, d.nodes);
    }
    FlatBelow(NodeAdds1(d, c, q), |c.nodes|, d.nodes);
  }

  lemma FormBelow(d: Device)
    requires ValidDevice(d)
    ensures PlacesBelow(CurrentForm(d), d.nodes)
  {
    hide Flat, NodeAdds1;
    forall k: nat | k < |d.cells| ensures PlacesBelow(CellAdds(d)(k), d.nodes) {
      var c := d.cells[k];
      forall i: nat | i < |c.points| ensures PlacesBelow(PointAdds(d, c)(i), d.nodes) {
        PointBelow(d, c, i);
      }
      FlatBelow(PointAdds(d, c), |c.points|, d.nodes);
    }
    hide CellAdds;
    FlatBelow(CellAdds(d), |d.cells|, d.nodes);
  }

  /** Two test functions that agree where the nodes are not free give the same current. */
  lemma TestFunctionIndependence(d: Device, free: nat -> bool, a: nat -> real, b: nat -> real)
    requires ValidDevice(d) && SteadyAt(d, free)
    requires forall g: nat :: g < d.nodes && !free(g) ==> a(g) == b(g)
    ensures TerminalCurrent(d, a) == TerminalCurrent(d, b)
  {
    hide CurrentForm, Entry, Sum;
    FormBelow(d);
    var adds := CurrentForm(d);
    EntriesDetermineForm(adds, a, d.nodes);
    EntriesDetermineForm(adds, b, d.nodes);
    forall g: nat | g < d.nodes ensures Weighted(adds, a)(g) == Weighted(adds, b)(g) {
      if free(g) { assert Entry(adds, g) == 0.0; }
    }
    SumEqual(Weighted(adds, a), Weighted(adds, b), d.nodes);
  }

  // ---------------------------------------------------------------------------------------
  // The form as sums over points, nodes and carriers

  function GlobalOf(d: Device, c: Cell, q: QPoint, n: nat): nat -> real
    requires ValidCell(c) && ValidPoint(c, q) && n < |c.nodes|
  {
    (v: nat) => if v < |c.carriers| then GlobalValue(d, c, q, n, v) else 0.0
  }

  /** Tested current of one node. */
  function NodeWork(d: Device, c: Cell, q: QPoint, w: nat -> real): nat -> real
    requires ValidCell(c) && ValidPoint(c, q)
  {
    (n: nat) => if n < |c.nodes| then w(c.nodes[n]) * Sum(GlobalOf(d, c, q, n), |c.carriers|) else 0.0
  }

  function PointWork(d: Device, c: Cell, w: nat -> real): nat -> real
    requires ValidCell(c)
  {
    (i: nat) => if i < |c.points| then Sum(NodeWork(d, c, c.points[i], w), |c.nodes|) else 0.0
  }

  function CellWork(d: Device, c: Cell, w: nat -> real): real
    requires ValidCell(c)
  {
    Sum(PointWork(d, c, w), |c.points|)
  }

  function CellWorks(d: Device, w: nat -> real): nat -> real
    requires ValidDevice(d)
  {
    (k: nat) => if k < |d.cells| then CellWork(d, d.cells[k], w) else 0.0
  }

  lemma NodeTested(d: Device, c: Cell, q: QPoint, w: nat -> real, n: nat)
    requires ValidCell(c) && ValidPoint(c, q) && n < |c.nodes|
    ensures Dot(NodeAdds1(d, c, q)(n), w) == NodeWork(d, c, q, w)(n)
  {
    hide GlobalValue, Flat, Sum;
    DotFlat(CarrierAdds(d, c, q, n), |c.carriers|, w);
    forall v: nat | v < |c.carriers|
      ensures DotOf(CarrierAdds(d, c, q, n), w)(v) == w(c.nodes[n]) * GlobalOf(d, c, q, n)(v)
    {
      CarrierAddsAt(d, c, q, n, v);
      DotAppend([], Add(c.nodes[n], GlobalValue(d, c, q, n, v)), w);
      assert [] + [Add(c.nodes[n], GlobalValue(d, c, q, n, v))] == [Add(c.nodes[n], GlobalValue(d, c, q, n, v))];
    }
    SumScale(GlobalOf(d, c, q, n), w(c.nodes[n]), DotOf(CarrierAdds(d, c, q, n), w), |c.carriers|);
  }

  lemma PointTested(d: Device, c: Cell, w: nat -> real, i: nat)
    requires ValidCell(c) && i < |c.points|
    ensures Dot(PointAdds(d, c)(i), w) == PointWork(d, c, w)(i)
  {
    hide NodeAdds1, NodeWork, Flat, Sum, Dot;
    var q := c.points[i];
    DotFlat(NodeAdds1(d, c, q), |c.nodes|, w);
    forall n: nat | n < |c.nodes| ensures DotOf(NodeAdds1(d, c, q), w)(n) == NodeWork(d, c, q, w)(n) {
      NodeTested(d, c, q, w, n);
    }
    SumEqual(DotOf(NodeAdds1(d, c, q), w), NodeWork(d, c, q, w), |c.nodes|);
  }

  lemma CellTested(d: Device, c: Cell, w: nat -> real)
    requires ValidCell(c)
    ensures Dot(Flat(PointAdds(d, c), |c.points|), w) == CellWork(d, c, w)
  {
    hide PointAdds, PointWork, Flat, Sum, Dot;
    DotFlat(PointAdds(d, c), |c.points|, w);
    forall i: nat | i < |c.points| ensures DotOf(PointAdds(d, c), w)(i) == PointWork(d, c, w)(i) {
      PointTested(d, c, w, i);
    }
    SumEqual(DotOf(PointAdds(d, c), w), PointWork(d, c, w), |c.points|);
  }

  lemma FormTested(d: Device, w: nat -> real)
    requires ValidDevice(d)
    ensures Dot(CurrentForm(d), w) == Sum(CellWorks(d, w), |d.cells|)
  {
    hide PointAdds, CellWork, Flat, Sum, Dot;
    DotFlat(CellAdds(d), |d.cells|, w);
    forall k: nat | k < |d.cells| ensures DotOf(CellAdds(d), w)(k) == CellWorks(d, w)(k) {
      CellTested(d, d.cells[k], w);
    }
    SumEqual(DotOf(CellAdds(d), w), CellWorks(d, w), |d.cells|);
  }

  // ---------------------------------------------------------------------------------------
  // Hypotheses on shape functions, temperature and recombination

  function Constantly(n: nat, t: real): (r: seq<real>)
    ensures |r| == n && forall i :: 0 <= i < n ==> r[i] == t
  {
    seq(n, i => t)
  }

  /** The shape functions sum to one and their gradients to zero. */
  ghost predicate PartitionOfUnity(c: Cell, q: QPoint)
    requires ValidPoint(c, q)
  {
    Gradient(q.dphi, Constantly(|c.nodes|, 1.0), |c.nodes|) == ZERO && Sum(ShapeOf(q), |c.nodes|) == 1.0
  }

  function ShapeOf(q: QPoint): nat -> real {
    (n: nat) => if n < |q.phi| then q.phi[n] else 0.0
  }

  ghost predicate UniformTemperature(c: Cell) {
    exists t: real :: c.temperature == Constantly(|c.nodes|, t)
  }

  ghost predicate RegularCell(d: Device, c: Cell)
    requires ValidCell(c)
  {
    UniformTemperature(c)
    && forall i :: 0 <= i < |c.points| ==> PartitionOfUnity(c, c.points[i]) && NetRate(d, c, c.points[i]) == 0.0
  }

  /** Uniform temperature, charge-conserving recombination, consistent shape functions. */
  ghost predicate Regular(d: Device)
    requires ValidDevice(d)
  {
    forall k :: 0 <= k < |d.cells| ==> RegularCell(d, d.cells[k])
  }

  lemma {:induction false} ConstantGradient(dphi: seq<Vec>, m: nat, t: real, n: nat)
    requires n <= |dphi| && n <= m
    ensures Gradient(dphi, Constantly(m, t), n) == Times3(t, Gradient(dphi, Constantly(m, 1.0), n))
  {
    if n > 0 {
      ConstantGradient(dphi, m, t, n - 1);
      OneScaled(dphi[n - 1]);
      var g, r := Gradient(dphi, Constantly(m, 1.0), n - 1), Gradient(dphi, Constantly(m, t), n - 1);
      GradientStep(t, 1.0, t, g, dphi[n - 1], r);
    } else {
      ZeroScaled(t);
    }
  }

  lemma NoTemperatureGradient(c: Cell, q: QPoint)
    requires ValidCell(c) && ValidPoint(c, q) && UniformTemperature(c) && PartitionOfUnity(c, q)
    ensures TemperatureGradient(c, q) == ZERO
  {
    var t: real :| c.temperature == Constantly(|c.nodes|, t);
    ConstantGradient(q.dphi, |c.nodes|, t, |c.nodes|);
    ZeroScaled(t);
  }

  // ---------------------------------------------------------------------------------------
  // Test functions that sum to one

  function TestOf(tests: seq<nat -> real>, g: nat): nat -> real {
    (k: nat) => if k < |tests| then tests[k](g) else 0.0
  }

  function TotalTest(tests: seq<nat -> real>, n: nat): nat -> real {
    (g: nat) => Sum(TestOf(tests, g), n)
  }

  function CurrentOf(d: Device, tests: seq<nat -> real>): nat -> real
    requires ValidDevice(d)
  {
    (k: nat) => if k < |tests| then TerminalCurrent(d, tests[k]) else 0.0
  }

  lemma {:induction false} DotSum(adds: seq<Add<nat>>, a: nat -> real, b: nat -> real, s: nat -> real)
    requires forall g: nat :: s(g) == a(g) + b(g)
    ensures Dot(adds, s) == Dot(adds, a) + Dot(adds, b)
  {
    if adds != [] {
      DotSum(adds[..|adds| - 1], a, b, s);
      var last := adds[|adds| - 1];
      assert (a(last.at) + b(last.at)) * last.val == a(last.at) * last.val + b(last.at) * last.val;
    }
  }

  lemma DotZero(adds: seq<Add<nat>>, w: nat -> real)
    requires forall g: nat :: w(g) == 0.0
    ensures Dot(adds, w) == 0.0
  {}

  lemma {:induction false} CurrentsAdd(d: Device, tests: seq<nat -> real>, n: nat)
    requires ValidDevice(d) && n <= |tests|
    ensures Sum(CurrentOf(d, tests), n) == TerminalCurrent(d, TotalTest(tests, n))
  {
    hide CurrentForm;
    if n == 0 {
      DotZero(CurrentForm(d), TotalTest(tests, 0));
    } else {
      CurrentsAdd(d, tests, n - 1);
      hide Dot;
      forall g: nat ensures TotalTest(tests, n)(g) == TotalTest(tests, n - 1)(g) + tests[n - 1](g) {
        assert TestOf(tests, g)(n - 1) == tests[n - 1](g);
      }
      DotSum(CurrentForm(d), TotalTest(tests, n - 1), tests[n - 1], TotalTest(tests, n));
    }
  }

  function CurrentTimes(a: Vec, q: QPoint): nat -> real {
    (n: nat) => if n < |q.dphi| then Inner(a, q.dphi[n]) else 0.0
  }

  lemma {:induction false} GradientsCancel(a: Vec, q: QPoint, m: nat, n: nat)
    requires n <= |q.dphi| && n <= m
    ensures Sum(CurrentTimes(a, q), n) == Inner(a, Gradient(q.dphi, Constantly(m, 1.0), n))
  {
    if n > 0 {
      GradientsCancel(a, q, m, n - 1);
      OneScaled(q.dphi[n - 1]);
      InnerPlus(a, Gradient(q.dphi, Constantly(m, 1.0), n - 1), q.dphi[n - 1]);
    } else {
      assert Inner(a, ZERO) == 0.0;
    }
  }

  lemma InnerPlus(a: Vec, b: Vec, c: Vec)
    ensures Inner(a, Plus3(b, c)) == Inner(a, b) + Inner(a, c)
  {}

  /** All nodes together give one carrier's charge generation. */
  lemma CarrierTotal(d: Device, c: Cell, q: QPoint, v: nat, f: nat -> real)
    requires ValidCell(c) && ValidPoint(c, q) && PartitionOfUnity(c, q) && v < |c.carriers|
    requires forall n: nat :: n < |c.nodes| ==> f(n) == GlobalValue(d, c, q, n, v)
    ensures Sum(f, |c.nodes|) == Rate(d, c, q, v)
  {
    hide Current, Rate, Gradient, Inner, Sum;
    var a, r, m := Current(d, c, q, v), Rate(d, c, q, v), |c.nodes|;
    GradientsCancel(a, q, m, m);
    assert Inner(a, ZERO) == 0.0 by { InnerZero(a); }
    var s := ScaledShape(r, q);
    forall n: nat | n < m ensures s(n) == r * ShapeOf(q)(n) {}
    hide Share;
    SumScale(ShapeOf(q), r, s, m);
    forall n: nat | n < m ensures f(n) == CurrentTimes(a, q)(n) + s(n) {
      assert f(n) == GlobalValue(d, c, q, n, v);
    }
    SumPlus(CurrentTimes(a, q), s, f, m);
  }

  lemma InnerZero(a: Vec)
    ensures Inner(a, ZERO) == 0.0
  {}

  function ScaledShape(r: real, q: QPoint): nat -> real {
    (n: nat) => if n < |q.phi| then Share(r, q.phi[n]) else 0.0
  }

  function Table(d: Device, c: Cell, q: QPoint): (nat, nat) -> real
    requires ValidCell(c) && ValidPoint(c, q)
  {
    (n: nat, v: nat) => if n < |c.nodes| && v < |c.carriers| then GlobalValue(d, c, q, n, v) else 0.0
  }

  /** A point generates the net rate; the gradients cancel over its nodes. */
  lemma PointTotal(d: Device, c: Cell, q: QPoint, w: nat -> real)
    requires ValidCell(c) && ValidPoint(c, q) && PartitionOfUnity(c, q)
    requires forall n: nat :: n < |c.nodes| ==> w(c.nodes[n]) == 1.0
    ensures Sum(NodeWork(d, c, q, w), |c.nodes|) == NetRate(d, c, q)
  {
    hide GlobalValue, PartitionOfUnity, Sum, Rate;
    var t := Table(d, c, q);
    forall n: nat | n < |c.nodes| ensures NodeWork(d, c, q, w)(n) == RowSums(t, |c.carriers|)(n) {
      SumEqual(GlobalOf(d, c, q, n), RowOf(t, n), |c.carriers|);
    }
    SumEqual(NodeWork(d, c, q, w), RowSums(t, |c.carriers|), |c.nodes|);
    SwapSums(t, |c.nodes|, |c.carriers|);
    forall v: nat | v < |c.carriers| ensures ColumnSums(t, |c.nodes|)(v) == RateOf(d, c, q)(v) {
      CarrierTotal(d, c, q, v, ColumnOf(t, v));
    }
    SumEqual(ColumnSums(t, |c.nodes|), RateOf(d, c, q), |c.carriers|);
  }

  lemma CellTotal(d: Device, c: Cell, w: nat -> real)
    requires ValidCell(c) && RegularCell(d, c)
    requires forall n: nat :: n < |c.nodes| ==> w(c.nodes[n]) == 1.0
    ensures CellWork(d, c, w) == 0.0
  {
    hide NodeWork, NetRate, PartitionOfUnity, Sum;
    forall i: nat | i < |c.points| ensures PointWork(d, c, w)(i) == 0.0 {
      PointTotal(d, c, c.points[i], w);
    }
    SumZero(PointWork(d, c, w), |c.points|);
  }

  /** Test functions that sum to one at every node give terminal currents that add up to zero. */
  lemma CurrentsBalance(d: Device, tests: seq<nat -> real>)
    requires ValidDevice(d) && Regular(d)
    requires forall g: nat :: g < d.nodes ==> TotalTest(tests, |tests|)(g) == 1.0
    ensures Sum(CurrentOf(d, tests), |tests|) == 0.0
  {
    hide CurrentForm, Dot, CellWork, Sum, RegularCell;
    var w := TotalTest(tests, |tests|);
    CurrentsAdd(d, tests, |tests|);
    FormTested(d, w);
    forall k: nat | k < |d.cells| ensures CellWorks(d, w)(k) == 0.0 {
      CellTotal(d, d.cells[k], w);
    }
    SumZero(CellWorks(d, w), |d.cells|);
  }
}
