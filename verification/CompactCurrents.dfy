/** The compact evaluation of the terminal currents over the elements at the boundaries, and its
    agreement with the global one. */
module CompactCurrents {
  import opened Calculus
  import opened Forms
  import opened BoxMesh
  import opened TerminalCurrents
  import opened RamoShockley

  /** One entry of the list of boundary elements; cell numbers beyond the device belong to
      regions outside the simulation and are skipped. */
  datatype BoundaryElement = BoundaryElement(cell: nat, contact: nat)

  // ---------------------------------------------------------------------------------------
  // The loop

  /** The compact loop weighs the drift current and, once per carrier, the total generation. */
  function CompactValue(d: Device, c: Cell, q: QPoint, n: nat, v: nat): real
    requires ValidCell(c) && ValidPoint(c, q) && n < |c.nodes| && v < |c.carriers|
  {
    Inner(Drift(d, c, q, v), q.dphi[n]) + Share(NetRate(d, c, q), q.phi[n])
  }

  function CompactOf(d: Device, c: Cell, q: QPoint, n: nat): nat -> real
    requires ValidCell(c) && ValidPoint(c, q) && n < |c.nodes|
  {
    (v: nat) => if v < |c.carriers| then CompactValue(d, c, q, n, v) else 0.0
  }

  function Scaled1(f: nat -> real, k: real): nat -> real {
    (v: nat) => f(v) * k
  }

  function CompactNode(d: Device, c: Cell, q: QPoint, w: nat -> real): nat -> real
    requires ValidCell(c) && ValidPoint(c, q)
  {
    (n: nat) => if n < |c.nodes| then Sum(Scaled1(CompactOf(d, c, q, n), w(c.nodes[n])), |c.carriers|) else 0.0
  }

  function CompactPoint(d: Device, c: Cell, w: nat -> real): nat -> real
    requires ValidCell(c)
  {
    (i: nat) => if i < |c.points| then Sum(CompactNode(d, c, c.points[i], w), |c.nodes|) else 0.0
  }

  function CompactCell(d: Device, c: Cell, w: nat -> real): real
    requires ValidCell(c)
  {
    Sum(CompactPoint(d, c, w), |c.points|)
  }

  function OnBoundary(on: nat -> bool): nat -> real {
    (g: nat) => if on(g) then 1.0 else 0.0
  }

  function ElementPart(d: Device, on: seq<nat -> bool>, b: BoundaryElement, k: nat): real
    requires ValidDevice(d) && k < |on|
  {
    if b.contact == k && b.cell < |d.cells| then CompactCell(d, d.cells[b.cell], OnBoundary(on[k])) else 0.0
  }

  function ElementParts(d: Device, on: seq<nat -> bool>, list: seq<BoundaryElement>, k: nat): nat -> real
    requires ValidDevice(d) && k < |on|
  {
    (i: nat) => if i < |list| then ElementPart(d, on, list[i], k) else 0.0
  }

  /** What the compact loop returns for contact k. */
  function CompactCurrent(d: Device, on: seq<nat -> bool>, list: seq<BoundaryElement>, k: nat): real
    requires ValidDevice(d) && k < |on|
  {
    -Sum(ElementParts(d, on, list, k), |list|)
  }

  method Weights(c: Cell, on: nat -> bool) returns (weight: seq<real>)
    ensures |weight| == |c.nodes|
    ensures forall n :: 0 <= n < |c.nodes| ==> weight[n] == OnBoundary(on)(c.nodes[n])
  {
    weight := [];
    for n := 0 to |c.nodes|
      invariant |weight| == n
      invariant forall i :: 0 <= i < n ==> weight[i] == OnBoundary(on)(c.nodes[i])
    {
      weight := weight + [if on(c.nodes[n]) then 1.0 else 0.0];
    }
  }

  /** Drift currents of all carriers and the total generation at a quadrature point. */
  method DriftCurrents(d: Device, c: Cell, q: QPoint) returns (curr: seq<Vec>, netRate: real)
    requires ValidCell(c) && ValidPoint(c, q)
    ensures |curr| == |c.carriers| && forall v: nat :: v < |c.carriers| ==> curr[v] == Drift(d, c, q, v)
    ensures netRate == NetRate(d, c, q)
  {
    hide Times3, Plus3, Gradient;
    curr, netRate := [], 0.0;
    var scale := q.jxw * d.e;
    for v := 0 to |c.carriers|
      invariant |curr| == v && forall i: nat :: i < v ==> curr[i] == Drift(d, c, q, i)
      invariant netRate * scale == Sum(RateOf(d, c, q), v)
    {
      var gradQf := ComputeGradient(q.dphi, c.carriers[v].qf, d.phi0);
      var sigma := q.jxw * (d.e * c.carriers[v].charge * q.cond[v]);
      var flow := Times3(sigma, Times3(SignOf(c.carriers[v].positive), gradQf));
      DriftAt(d, c, q, v, sigma, gradQf, flow);
      curr := curr + [flow];
      GenerationStep(q.jxw, d.e, c.carriers[v].charge, q.rate[v], netRate, scale);
      netRate := netRate - c.carriers[v].charge * q.rate[v];
    }
    netRate := netRate * scale;
  }

  lemma DriftAt(d: Device, c: Cell, q: QPoint, v: nat, sigma: real, gradQf: Vec, flow: Vec)
    requires ValidCell(c) && ValidPoint(c, q) && v < |c.carriers|
    requires sigma == q.jxw * (d.e * c.carriers[v].charge * q.cond[v]) && gradQf == FermiGradient(d, c, q, v)
    requires flow == Times3(sigma, Times3(SignOf(c.carriers[v].positive), gradQf))
    ensures flow == Drift(d, c, q, v)
  {}

  lemma GenerationStep(jxw: real, e: real, charge: real, r: real, net: real, scale: real)
    requires scale == jxw * e
    ensures (net - charge * r) * scale == net * scale + -jxw * e * charge * r
  {}

  /** One node: its weighted current is taken from the contact. */
  method AddCompactNode(d: Device, c: Cell, q: QPoint, n: nat, curr: seq<Vec>, netRate: real, weight: real,
                        current: array<real>, k: nat, ghost w: nat -> real)
    requires ValidCell(c) && ValidPoint(c, q) && n < |c.nodes| && k < current.Length && weight == w(c.nodes[n])
    requires |curr| == |c.carriers| && (forall v: nat :: v < |c.carriers| ==> curr[v] == Drift(d, c, q, v))
    requires netRate == NetRate(d, c, q)
    modifies current
    ensures current[k] == old(current[k]) - CompactNode(d, c, q, w)(n)
    ensures forall j :: 0 <= j < current.Length && j != k ==> current[j] == old(current[j])
  {
    hide Drift, NetRate, CompactValue;
    ghost var f := Scaled1(CompactOf(d, c, q, n), weight);
    assert CompactNode(d, c, q, w)(n) == Sum(f, |c.carriers|);
    for v := 0 to |c.carriers|
      invariant current[k] == old(current[k]) - Sum(f, v)
      invariant forall j :: 0 <= j < current.Length && j != k ==> current[j] == old(current[j])
    {
      CompactValueAt(d, c, q, n, v);
      current[k] := current[k] - (Inner(curr[v], q.dphi[n]) + Share(netRate, q.phi[n])) * weight;
    }
  }

  lemma CompactValueAt(d: Device, c: Cell, q: QPoint, n: nat, v: nat)
    requires ValidCell(c) && ValidPoint(c, q) && n < |c.nodes| && v < |c.carriers|
    ensures CompactOf(d, c, q, n)(v) == Inner(Drift(d, c, q, v), q.dphi[n]) + Share(NetRate(d, c, q), q.phi[n])
  {}

  method AddCompactPoint(d: Device, c: Cell, q: QPoint, weight: seq<real>, current: array<real>, k: nat,
                         ghost w: nat -> real)
    requires ValidCell(c) && ValidPoint(c, q) && k < current.Length
    requires |weight| == |c.nodes| && forall n :: 0 <= n < |c.nodes| ==> weight[n] == w(c.nodes[n])
    modifies current
    ensures current[k] == old(current[k]) - Sum(CompactNode(d, c, q, w), |c.nodes|)
    ensures forall j :: 0 <= j < current.Length && j != k ==> current[j] == old(current[j])
  {
    hide Drift, NetRate, CompactNode;
    var curr, netRate := DriftCurrents(d, c, q);
    for n := 0 to |c.nodes|
      invariant current[k] == old(current[k]) - Sum(CompactNode(d, c, q, w), n)
      invariant forall j :: 0 <= j < current.Length && j != k ==> current[j] == old(current[j])
    {
      AddCompactNode(d, c, q, n, curr, netRate, weight[n], current, k, w);
    }
  }

  method AddCompactCell(d: Device, c: Cell, on: nat -> bool, current: array<real>, k: nat)
    requires ValidCell(c) && k < current.Length
    modifies current
    ensures current[k] == old(current[k]) - CompactCell(d, c, OnBoundary(on))
    ensures forall j :: 0 <= j < current.Length && j != k ==> current[j] == old(current[j])
  {
    hide CompactNode, OnBoundary;
    var weight := Weights(c, on);
    ghost var w := OnBoundary(on);
    for i := 0 to |c.points|
      invariant current[k] == old(current[k]) - Sum(CompactPoint(d, c, w), i)
      invariant forall j :: 0 <= j < current.Length && j != k ==> current[j] == old(current[j])
    {
      AddCompactPoint(d, c, c.points[i], weight, current, k, w);
    }
  }

  /** Terminal currents from the boundary elements alone. */
  method CompactCurrents(d: Device, on: seq<nat -> bool>, list: seq<BoundaryElement>, current: array<real>)
    requires ValidDevice(d) && current.Length == |on|
    requires forall i :: 0 <= i < |list| ==> list[i].contact < |on|
    modifies current
    ensures forall k :: 0 <= k < |on| ==> current[k] == CompactCurrent(d, on, list, k)
  {
    hide CompactCell;
    Reset(current);
    for i := 0 to |list|
      invariant forall k :: 0 <= k < |on| ==> current[k] == -Sum(ElementParts(d, on, list, k), i)
    {
      if list[i].cell < |d.cells| {
        AddCompactCell(d, d.cells[list[i].cell], on[list[i].contact], current, list[i].contact);
      }
    }
  }

  // ---------------------------------------------------------------------------------------
  // The difference between the two evaluations

  function Thermal(d: Device, c: Cell, q: QPoint, v: nat): Vec
    requires ValidCell(c) && ValidPoint(c, q) && v < |c.carriers|
  {
    Times3(Sigma(d, c, q, v), Times3(q.thermo[v], TemperatureGradient(c, q)))
  }

  function ThermalOf(d: Device, c: Cell, q: QPoint, n: nat): nat -> real
    requires ValidCell(c) && ValidPoint(c, q) && n < |c.nodes|
  {
    (v: nat) => if v < |c.carriers| then Inner(Thermal(d, c, q, v), q.dphi[n]) else 0.0
  }

  /** The compact loop counts the generation once per carrier instead of once, and leaves out
      the thermoelectric current. */
  function NodeDefect(d: Device, c: Cell, q: QPoint, n: nat): real
    requires ValidCell(c) && ValidPoint(c, q) && n < |c.nodes|
  {
    (|c.carriers| as real - 1.0) * (Share(NetRate(d, c, q), q.phi[n])) - Sum(ThermalOf(d, c, q, n), |c.carriers|)
  }

  lemma CurrentSplits(d: Device, c: Cell, q: QPoint, v: nat, n: nat)
    requires ValidCell(c) && ValidPoint(c, q) && v < |c.carriers| && n < |c.nodes|
    ensures Inner(Current(d, c, q, v), q.dphi[n])
         == Inner(Drift(d, c, q, v), q.dphi[n]) + Inner(Thermal(d, c, q, v), q.dphi[n])
  {
    hide Sigma, FermiGradient, TemperatureGradient;
    var a := Times3(SignOf(c.carriers[v].positive), FermiGradient(d, c, q, v));
    var b := Times3(q.thermo[v], TemperatureGradient(c, q));
    InnerSplits(Sigma(d, c, q, v), a, b, q.dphi[n]);
  }

  lemma InnerSplits(k: real, a: Vec, b: Vec, g: Vec)
    ensures Inner(Times3(k, Plus3(a, b)), g) == Inner(Times3(k, a), g) + Inner(Times3(k, b), g)
  {}

  /** Generation counted for m carriers instead of summed over them. */
  function Surplus(d: Device, c: Cell, q: QPoint, n: nat, m: nat): real
    requires ValidPoint(c, q) && n < |c.nodes|
  {
    m as real * (Share(NetRate(d, c, q), q.phi[n])) - Share(Sum(RateOf(d, c, q), m), q.phi[n])
  }

  lemma SurplusStep(d: Device, c: Cell, q: QPoint, n: nat, m: nat)
    requires ValidPoint(c, q) && n < |c.nodes|
    ensures Surplus(d, c, q, n, 0) == 0.0
    ensures Surplus(d, c, q, n, m + 1)
         == Surplus(d, c, q, n, m) + Share(NetRate(d, c, q), q.phi[n]) - Share(RateOf(d, c, q)(m), q.phi[n])
  {}

  lemma OneMore(m: nat, x: real)
    ensures (m + 1) as real * x == m as real * x + x && 0 as real * x == 0.0
  {}

  /** The carrier sums of the first m carriers. */
  lemma {:induction false} CarrierDefect(d: Device, c: Cell, q: QPoint, n: nat, m: nat)
    requires ValidCell(c) && ValidPoint(c, q) && n < |c.nodes| && m <= |c.carriers|
    ensures Sum(CompactOf(d, c, q, n), m)
         == Sum(GlobalOf(d, c, q, n), m) - Sum(ThermalOf(d, c, q, n), m) + Surplus(d, c, q, n, m)
  {
    hide GlobalOf, CompactOf, ThermalOf, RateOf, NetRate, Surplus, Share;
    if m == 0 {
      SurplusStep(d, c, q, n, 0);
    } else {
      CarrierDefect(d, c, q, n, m - 1);
      CarrierTerms(d, c, q, n, m - 1);
      SurplusStep(d, c, q, n, m - 1);
    }
  }

  lemma CarrierTerms(d: Device, c: Cell, q: QPoint, n: nat, v: nat)
    requires ValidCell(c) && ValidPoint(c, q) && n < |c.nodes| && v < |c.carriers|
    ensures CompactOf(d, c, q, n)(v) == GlobalOf(d, c, q, n)(v) - ThermalOf(d, c, q, n)(v)
                                      + Share(NetRate(d, c, q), q.phi[n]) - Share(RateOf(d, c, q)(v), q.phi[n])
  {
    CurrentSplits(d, c, q, v, n);
    hide Inner, Current, Drift, Thermal, Rate, NetRate, Share;
  }

  lemma NodeDefectIs(d: Device, c: Cell, q: QPoint, n: nat)
    requires ValidCell(c) && ValidPoint(c, q) && n < |c.nodes|
    ensures Sum(CompactOf(d, c, q, n), |c.carriers|) == Sum(GlobalOf(d, c, q, n), |c.carriers|) + NodeDefect(d, c, q, n)
  {
    hide CompactOf, GlobalOf, ThermalOf, RateOf, Share;
    CarrierDefect(d, c, q, n, |c.carriers|);
    OneLess(|c.carriers| as real, Share(NetRate(d, c, q), q.phi[n]));
  }

  lemma OneLess(m: real, x: real)
    ensures (m - 1.0) * x == m * x - x
  {}

  function DefectNode(d: Device, c: Cell, q: QPoint, w: nat -> real): nat -> real
    requires ValidCell(c) && ValidPoint(c, q)
  {
    (n: nat) => if n < |c.nodes| then w(c.nodes[n]) * NodeDefect(d, c, q, n) else 0.0
  }

  function DefectPoint(d: Device, c: Cell, w: nat -> real): nat -> real
    requires ValidCell(c)
  {
    (i: nat) => if i < |c.points| then Sum(DefectNode(d, c, c.points[i], w), |c.nodes|) else 0.0
  }

  function CellDefect(d: Device, c: Cell, w: nat -> real): real
    requires ValidCell(c)
  {
    Sum(DefectPoint(d, c, w), |c.points|)
  }

  lemma NodeDiffers(d: Device, c: Cell, q: QPoint, w: nat -> real, n: nat)
    requires ValidCell(c) && ValidPoint(c, q) && n < |c.nodes|
    ensures CompactNode(d, c, q, w)(n) == NodeWork(d, c, q, w)(n) + DefectNode(d, c, q, w)(n)
  {
    hide CompactOf, GlobalOf, NodeDefect, Sum;
    NodeDefectIs(d, c, q, n);
    var k := w(c.nodes[n]);
    var f, m := CompactOf(d, c, q, n), |c.carriers|;
    SumScale(f, k, Scaled1(f, k), m);
    DistributeOver(k, Sum(GlobalOf(d, c, q, n), m), NodeDefect(d, c, q, n));
  }

  lemma CellDiffers(d: Device, c: Cell, w: nat -> real)
    requires ValidCell(c)
    ensures CompactCell(d, c, w) == CellWork(d, c, w) + CellDefect(d, c, w)
  {
    hide CompactNode, NodeWork, DefectNode, Sum;
    forall i: nat | i < |c.points|
      ensures CompactPoint(d, c, w)(i) == PointWork(d, c, w)(i) + DefectPoint(d, c, w)(i)
    {
      var q := c.points[i];
      forall n: nat | n < |c.nodes|
        ensures CompactNode(d, c, q, w)(n) == NodeWork(d, c, q, w)(n) + DefectNode(d, c, q, w)(n)
      {
        NodeDiffers(d, c, q, w, n);
      }
      SumPlus(NodeWork(d, c, q, w), DefectNode(d, c, q, w), CompactNode(d, c, q, w), |c.nodes|);
    }
    SumPlus(PointWork(d, c, w), DefectPoint(d, c, w), CompactPoint(d, c, w), |c.points|);
  }

  // ---------------------------------------------------------------------------------------
  // The list of boundary elements

  /** How often the list names a cell for contact k. */
  function Count(list: seq<BoundaryElement>, k: nat, cell: nat): nat {
    if list == [] then 0 else
      Count(list[..|list| - 1], k, cell) + (if list[|list| - 1] == BoundaryElement(cell, k) then 1 else 0)
  }

  ghost predicate Touching(c: Cell, on: nat -> bool) {
    exists n :: 0 <= n < |c.nodes| && on(c.nodes[n])
  }

  /** Every cell with a node on the boundary is listed once for it. */
  ghost predicate Complete(d: Device, on: seq<nat -> bool>, list: seq<BoundaryElement>, k: nat)
    requires k < |on|
  {
    forall cell: nat :: cell < |d.cells| && Touching(d.cells[cell], on[k]) ==> Count(list, k, cell) == 1
  }

  function Counted(d: Device, on: seq<nat -> bool>, list: seq<BoundaryElement>, k: nat): nat -> real
    requires ValidDevice(d) && k < |on|
  {
    (cell: nat) => if cell < |d.cells| then
        Count(list, k, cell) as real * CompactCell(d, d.cells[cell], OnBoundary(on[k]))
      else 0.0
  }

  lemma {:induction false} PartsPrefix(d: Device, on: seq<nat -> bool>, list: seq<BoundaryElement>, k: nat, n: nat,
                                       m: nat)
    requires ValidDevice(d) && k < |on| && n <= m <= |list|
    ensures Sum(ElementParts(d, on, list[..m], k), n) == Sum(ElementParts(d, on, list, k), n)
  {
    hide CompactCell;
    SumEqual(ElementParts(d, on, list[..m], k), ElementParts(d, on, list, k), n);
  }

  /** Summing over the list is summing over the cells with multiplicity. */
  lemma {:induction false} SumOverCells(d: Device, on: seq<nat -> bool>, list: seq<BoundaryElement>, k: nat)
    requires ValidDevice(d) && k < |on|
    ensures Sum(ElementParts(d, on, list, k), |list|) == Sum(Counted(d, on, list, k), |d.cells|)
  {
    hide CompactCell, OnBoundary, ElementPart;
    if list == [] {
      forall cell: nat | cell < |d.cells| ensures Counted(d, on, list, k)(cell) == 0.0 {
        NeverCounted(d, on, k, cell);
      }
      SumZero(Counted(d, on, list, k), |d.cells|);
    } else {
      var rest, last := list[..|list| - 1], list[|list| - 1];
      SumOverCells(d, on, rest, k);
      PartsPrefix(d, on, list, k, |list| - 1, |list| - 1);
      var one := Spike(last.cell, ElementPart(d, on, last, k));
      forall cell: nat | cell < |d.cells|
        ensures Counted(d, on, list, k)(cell) == Counted(d, on, rest, k)(cell) + one(cell)
      {
        CountStep(d, on, list, k, cell);
      }
      SumPlus(Counted(d, on, rest, k), one, Counted(d, on, list, k), |d.cells|);
      hide Counted;
      if last.cell < |d.cells| {
        SumSingle(one, last.cell, |d.cells|);
      } else {
        PartOutside(d, on, last, k);
        SumZero(one, |d.cells|);
      }
    }
  }

  lemma NeverCounted(d: Device, on: seq<nat -> bool>, k: nat, cell: nat)
    requires ValidDevice(d) && k < |on| && cell < |d.cells|
    ensures Counted(d, on, [], k)(cell) == 0.0
  {
    hide CompactCell, OnBoundary;
    var none: seq<BoundaryElement> := [];
    assert Count(none, k, cell) == 0;
    OneMore(0, CompactCell(d, d.cells[cell], OnBoundary(on[k])));
  }

  lemma PartOutside(d: Device, on: seq<nat -> bool>, b: BoundaryElement, k: nat)
    requires ValidDevice(d) && k < |on| && b.cell >= |d.cells|
    ensures ElementPart(d, on, b, k) == 0.0
  {}

  lemma CountStep(d: Device, on: seq<nat -> bool>, list: seq<BoundaryElement>, k: nat, cell: nat)
    requires ValidDevice(d) && k < |on| && list != [] && cell < |d.cells|
    ensures Counted(d, on, list, k)(cell)
         == Counted(d, on, list[..|list| - 1], k)(cell)
          + Spike(list[|list| - 1].cell, ElementPart(d, on, list[|list| - 1], k))(cell)
  {}

  lemma AwayFromBoundary(d: Device, c: Cell, on: nat -> bool)
    requires ValidCell(c) && !Touching(c, on)
    ensures CompactCell(d, c, OnBoundary(on)) == 0.0 && CellWork(d, c, OnBoundary(on)) == 0.0
  {
    hide GlobalOf, CompactOf;
    var w := OnBoundary(on);
    forall i: nat | i < |c.points| ensures CompactPoint(d, c, w)(i) == 0.0 && PointWork(d, c, w)(i) == 0.0 {
      var q := c.points[i];
      forall n: nat | n < |c.nodes| ensures CompactNode(d, c, q, w)(n) == 0.0 && NodeWork(d, c, q, w)(n) == 0.0 {
        assert w(c.nodes[n]) == 0.0;
        SumZero(Scaled1(CompactOf(d, c, q, n), w(c.nodes[n])), |c.carriers|);
      }
      SumZero(CompactNode(d, c, q, w), |c.nodes|);
      SumZero(NodeWork(d, c, q, w), |c.nodes|);
    }
    SumZero(CompactPoint(d, c, w), |c.points|);
    SumZero(PointWork(d, c, w), |c.points|);
  }

  /** Cells at the boundary carry the defect. */
  function Defects(d: Device, on: nat -> bool): nat -> real
    requires ValidDevice(d)
  {
    (k: nat) => if k < |d.cells| then CellDefect(d, d.cells[k], OnBoundary(on)) else 0.0
  }

  /** The compact current is the global one for the indicator of the boundary, up to the defect. */
  lemma CompactDefect(d: Device, on: seq<nat -> bool>, list: seq<BoundaryElement>, k: nat)
    requires ValidDevice(d) && k < |on| && Complete(d, on, list, k)
    ensures CompactCurrent(d, on, list, k)
         == TerminalCurrent(d, OnBoundary(on[k])) - Sum(Defects(d, on[k]), |d.cells|)
  {
    hide CompactCell, CellWork, CellDefect, CurrentForm, OnBoundary, Sum, ElementParts, Dot;
    var w := OnBoundary(on[k]);
    SumOverCells(d, on, list, k);
    FormTested(d, w);
    forall cell: nat | cell < |d.cells|
      ensures Counted(d, on, list, k)(cell) == CellWorks(d, w)(cell) + Defects(d, on[k])(cell)
    {
      CellDiffers(d, d.cells[cell], w);
      if Touching(d.cells[cell], on[k]) {
        assert Count(list, k, cell) == 1;
      } else {
        AwayFromBoundary(d, d.cells[cell], on[k]);
      }
    }
    SumPlus(CellWorks(d, w), Defects(d, on[k]), Counted(d, on, list, k), |d.cells|);
  }

  lemma NoDefect(d: Device, c: Cell, w: nat -> real)
    requires ValidCell(c) && RegularCell(d, c)
    ensures CellDefect(d, c, w) == 0.0
  {
    hide NetRate, Sigma, Gradient;
    forall i: nat | i < |c.points| ensures DefectPoint(d, c, w)(i) == 0.0 {
      var q := c.points[i];
      NoTemperatureGradient(c, q);
      hide PartitionOfUnity, TemperatureGradient;
      forall n: nat | n < |c.nodes| ensures DefectNode(d, c, q, w)(n) == 0.0 {
        NoNodeDefect(d, c, q, n);
      }
      SumZero(DefectNode(d, c, q, w), |c.nodes|);
    }
    SumZero(DefectPoint(d, c, w), |c.points|);
  }

  lemma NoNodeDefect(d: Device, c: Cell, q: QPoint, n: nat)
    requires ValidCell(c) && ValidPoint(c, q) && n < |c.nodes|
    requires NetRate(d, c, q) == 0.0 && TemperatureGradient(c, q) == ZERO
    ensures NodeDefect(d, c, q, n) == 0.0
  {
    hide NetRate, Sigma, TemperatureGradient;
    SumZero(ThermalOf(d, c, q, n), |c.carriers|);
  }

  /** At a discrete solution the compact loop returns the current of any test function that is
      one on the contact's nodes and zero on the other nodes that are not free. */
  lemma CompactIsGlobal(d: Device, on: seq<nat -> bool>, list: seq<BoundaryElement>, k: nat, free: nat -> bool,
                        test: nat -> real)
    requires ValidDevice(d) && k < |on| && Complete(d, on, list, k) && Regular(d) && SteadyAt(d, free)
    requires forall g: nat :: g < d.nodes && !free(g) ==> test(g) == OnBoundary(on[k])(g)
    ensures CompactCurrent(d, on, list, k) == TerminalCurrent(d, test)
  {
    hide CellDefect, CompactCurrent, TerminalCurrent, SteadyAt, RegularCell, Complete, Sum;
    CompactDefect(d, on, list, k);
    forall cell: nat | cell < |d.cells| ensures Defects(d, on[k])(cell) == 0.0 {
      NoDefect(d, d.cells[cell], OnBoundary(on[k]));
    }
    SumZero(Defects(d, on[k]), |d.cells|);
    TestFunctionIndependence(d, free, test, OnBoundary(on[k]));
  }

  // ---------------------------------------------------------------------------------------
  // Where they differ

  lemma ListedOnce()
    ensures Count([BoundaryElement(0, 0)], 0, 0) == 1
  {
    assert [BoundaryElement(0, 0)][..0] == [];
    assert Count([], 0, 0) == 0;
  }

  /** A device of one cell with one quadrature point. */
  lemma SingleDefect(d: Device, on: nat -> bool, c: Cell, q: QPoint)
    requires ValidDevice(d) && d.cells == [c] && c.points == [q] && ValidCell(c) && ValidPoint(c, q)
    ensures TerminalCurrent(d, OnBoundary(on))
      == CompactCurrent(d, [on], [BoundaryElement(0, 0)], 0) + Sum(DefectNode(d, c, q, OnBoundary(on)), |c.nodes|)
  {
    hide CompactCurrent, TerminalCurrent, NodeDefect;
    ListedOnce();
    CompactDefect(d, [on], [BoundaryElement(0, 0)], 0);
    hide DefectNode, Count;
    SumSingle(DefectPoint(d, c, OnBoundary(on)), 0, 1);
    SumSingle(Defects(d, on), 0, 1);
  }

  /** A bar with two carriers of opposite charge, of which only the first recombines. */
  const ONE_SIDED := QPoint(1.0, [0.5, 0.5], [Vec(-1.0, 0.0, 0.0), Vec(1.0, 0.0, 0.0)], [0.0, 0.0], [0.0, 0.0],
                            [1.0, 0.0])
  const CHARGING := Cell([0, 1], [0.0, 0.0], [Carrier(-1.0, false, [0.0, 0.0]), Carrier(1.0, true, [0.0, 0.0])],
                         [ONE_SIDED])

  /** Generation of net charge is counted twice there. */
  lemma GenerationCountedTwice(d: Device, on: nat -> bool)
    requires d == Device(1.0, 1.0, 2, [CHARGING]) && on(0) && !on(1)
    ensures ValidDevice(d)
    ensures TerminalCurrent(d, OnBoundary(on)) == CompactCurrent(d, [on], [BoundaryElement(0, 0)], 0) + 0.5
  {
    hide ValidDevice, ValidCell, ValidPoint, CompactCurrent, TerminalCurrent, NodeDefect, DefectNode, Sum;
    ChargingNode(d);
    ValidCharging(d);
    SingleDefect(d, on, CHARGING, ONE_SIDED);
    FirstNodeOnly(d, CHARGING, ONE_SIDED, OnBoundary(on));
  }

  lemma ValidCharging(d: Device)
    requires d == Device(1.0, 1.0, 2, [CHARGING])
    ensures ValidDevice(d) && ValidCell(CHARGING)
  {}

  lemma ChargingNode(d: Device)
    requires d.e == 1.0
    ensures ValidCell(CHARGING) && ValidPoint(CHARGING, ONE_SIDED) && NodeDefect(d, CHARGING, ONE_SIDED, 0) == 0.5
  {
    hide FermiGradient, TemperatureGradient;
    var c, q := CHARGING, ONE_SIDED;
    assert Rate(d, c, q, 0) == 1.0 && Rate(d, c, q, 1) == 0.0;
    hide Rate;
    SumSingle(RateOf(d, c, q), 0, 2);
    NoThermalCurrent(d, c, q);
    SumZero(ThermalOf(d, c, q, 0), 2);
    hide ThermalOf;
  }

  lemma NoThermalCurrent(d: Device, c: Cell, q: QPoint)
    requires c == CHARGING && q == ONE_SIDED && ValidCell(c) && ValidPoint(c, q)
    ensures forall v: nat :: v < 2 ==> ThermalOf(d, c, q, 0)(v) == 0.0
  {
    hide TemperatureGradient;
  }

  lemma OneCarrierDefect(d: Device, c: Cell, q: QPoint, n: nat, g: Vec)
    requires ValidCell(c) && ValidPoint(c, q) && n < |c.nodes| && |c.carriers| == 1
    requires TemperatureGradient(c, q) == g && Sigma(d, c, q, 0) == 1.0 && q.thermo[0] == 1.0
    ensures NodeDefect(d, c, q, n) == -Inner(g, q.dphi[n])
  {
    hide NetRate, TemperatureGradient, Sigma;
    SumSingle(ThermalOf(d, c, q, n), 0, 1);
    UnitTwice(g);
    hide ThermalOf, Inner;
    NoSurplus(Share(NetRate(d, c, q), q.phi[n]));
  }

  lemma UnitTwice(g: Vec)
    ensures Times3(1.0, Times3(1.0, g)) == g
  {}

  lemma NoSurplus(x: real)
    ensures (1 as real - 1.0) * x == 0.0
  {}

  lemma TwoNodes(dphi: seq<Vec>, f: seq<real>)
    requires |dphi| == |f| == 2 && f[0] == 0.0 && f[1] == 1.0
    ensures Gradient(dphi, f, 2) == dphi[1]
  {
    hide Plus3, Times3;
    UnitTimes(dphi[0]);
    UnitTimes(dphi[1]);
    assert Gradient(dphi, f, 1) == ZERO;
  }

  lemma UnitTimes(g: Vec)
    ensures Plus3(ZERO, Times3(0.0, g)) == ZERO && Plus3(ZERO, Times3(1.0, g)) == g
  {}

  /** A bar between two temperatures, with one carrier at rest. */
  const BETWEEN := QPoint(1.0, [0.5, 0.5], [Vec(-1.0, 0.0, 0.0), Vec(1.0, 0.0, 0.0)], [1.0], [1.0], [0.0])
  const HEATED := Cell([0, 1], [0.0, 1.0], [Carrier(1.0, true, [0.0, 0.0])], [BETWEEN])

  /** The thermoelectric current is missed there. */
  lemma ThermalCurrentMissed(d: Device, on: nat -> bool)
    requires d == Device(1.0, 1.0, 2, [HEATED]) && on(0) && !on(1)
    ensures ValidDevice(d)
    ensures TerminalCurrent(d, OnBoundary(on)) == CompactCurrent(d, [on], [BoundaryElement(0, 0)], 0) + 1.0
  {
    hide ValidDevice, ValidCell, ValidPoint, CompactCurrent, TerminalCurrent, NodeDefect, DefectNode, Sum;
    HeatedNode(d);
    ValidBar(d);
    SingleDefect(d, on, HEATED, BETWEEN);
    FirstNodeOnly(d, HEATED, BETWEEN, OnBoundary(on));
  }

  lemma ValidBar(d: Device)
    requires d == Device(1.0, 1.0, 2, [HEATED])
    ensures ValidDevice(d) && ValidCell(HEATED)
  {}

  lemma FirstNodeOnly(d: Device, c: Cell, q: QPoint, w: nat -> real)
    requires ValidCell(c) && ValidPoint(c, q) && |c.nodes| > 0 && w(c.nodes[0]) == 1.0
    requires forall n :: 0 < n < |c.nodes| ==> w(c.nodes[n]) == 0.0
    ensures Sum(DefectNode(d, c, q, w), |c.nodes|) == NodeDefect(d, c, q, 0)
  {
    hide NodeDefect;
    SumSingle(DefectNode(d, c, q, w), 0, |c.nodes|);
  }

  lemma HeatedNode(d: Device)
    requires d.e == 1.0
    ensures ValidCell(HEATED) && ValidPoint(HEATED, BETWEEN) && NodeDefect(d, HEATED, BETWEEN, 0) == 1.0
  {
    BarDefect(d, HEATED, BETWEEN);
  }

  lemma BarDefect(d: Device, c: Cell, q: QPoint)
    requires d.e == 1.0 && ValidCell(c) && ValidPoint(c, q) && |c.nodes| == 2 && |c.carriers| == 1
    requires c.temperature[0] == 0.0 && c.temperature[1] == 1.0 && c.carriers[0].charge == 1.0
    requires q.jxw == 1.0 && q.cond[0] == 1.0 && q.thermo[0] == 1.0
    requires q.dphi[0] == Vec(-1.0, 0.0, 0.0) && q.dphi[1] == Vec(1.0, 0.0, 0.0)
    ensures NodeDefect(d, c, q, 0) == 1.0
  {
    hide NodeDefect, Gradient;
    TwoNodes(q.dphi, c.temperature);
    assert Sigma(d, c, q, 0) == 1.0;
    hide Sigma;
    OneCarrierDefect(d, c, q, 0, q.dphi[1]);
  }
}
