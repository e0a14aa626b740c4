/** When the compact terminal currents equal the global ones whatever the boundary: a condition on
    each node. */
module CompactAgreement {
  import opened Forms
  import opened TerminalCurrents
  import opened RamoShockley
  import opened CompactCurrents

  /** Defect of the device for a weight of the nodes. */
  function WeightedDefects(d: Device, w: nat -> real): nat -> real
    requires ValidDevice(d)
  {
    (k: nat) => if k < |d.cells| then CellDefect(d, d.cells[k], w) else 0.0
  }

  function DeviceDefect(d: Device, w: nat -> real): real
    requires ValidDevice(d)
  {
    Sum(WeightedDefects(d, w), |d.cells|)
  }

  function Single(g: nat): nat -> bool { (h: nat) => h == g }

  /** The defect at one node: surplus generation and missing thermoelectric current of all cells there. */
  function DefectAt(d: Device, g: nat): real
    requires ValidDevice(d)
  {
    DeviceDefect(d, OnBoundary(Single(g)))
  }

  // ---------------------------------------------------------------------------------------
  // The defect is the sum over the nodes

  lemma CellDefectAdds(d: Device, c: Cell, a: nat -> real, b: nat -> real, w: nat -> real)
    requires ValidCell(c) && forall n :: 0 <= n < |c.nodes| ==> w(c.nodes[n]) == a(c.nodes[n]) + b(c.nodes[n])
    ensures CellDefect(d, c, w) == CellDefect(d, c, a) + CellDefect(d, c, b)
  {
    hide NodeDefect, Sum;
    forall i: nat | i < |c.points|
      ensures DefectPoint(d, c, w)(i) == DefectPoint(d, c, a)(i) + DefectPoint(d, c, b)(i)
    {
      var q := c.points[i];
      forall n: nat | n < |c.nodes|
        ensures DefectNode(d, c, q, w)(n) == DefectNode(d, c, q, a)(n) + DefectNode(d, c, q, b)(n)
      {
        Spread(a(c.nodes[n]), b(c.nodes[n]), NodeDefect(d, c, q, n));
      }
      SumPlus(DefectNode(d, c, q, a), DefectNode(d, c, q, b), DefectNode(d, c, q, w), |c.nodes|);
    }
    hide DefectPoint;
    SumPlus(DefectPoint(d, c, a), DefectPoint(d, c, b), DefectPoint(d, c, w), |c.points|);
  }

  lemma Spread(a: real, b: real, x: real)
    ensures (a + b) * x == a * x + b * x
  {}

  lemma DefectAdds(d: Device, a: nat -> real, b: nat -> real, w: nat -> real)
    requires ValidDevice(d) && forall g: nat :: g < d.nodes ==> w(g) == a(g) + b(g)
    ensures DeviceDefect(d, w) == DeviceDefect(d, a) + DeviceDefect(d, b)
  {
    hide CellDefect, Sum;
    forall k: nat | k < |d.cells|
      ensures WeightedDefects(d, w)(k) == WeightedDefects(d, a)(k) + WeightedDefects(d, b)(k)
    {
      CellDefectAdds(d, d.cells[k], a, b, w);
    }
    hide WeightedDefects;
    SumPlus(WeightedDefects(d, a), WeightedDefects(d, b), WeightedDefects(d, w), |d.cells|);
  }

  function Nothing(): nat -> bool { (g: nat) => false }

  /** The part of a boundary among the first n nodes. */
  function FirstOf(on: nat -> bool, n: nat): nat -> bool { (g: nat) => g < n && on(g) }

  lemma NoDefectOfNothing(d: Device)
    requires ValidDevice(d)
    ensures DeviceDefect(d, OnBoundary(Nothing())) == 0.0
  {
    var w := OnBoundary(Nothing());
    hide DeviceDefect;
    DefectAdds(d, w, w, w);
  }

  function DefectsOn(d: Device, on: nat -> bool): nat -> real
    requires ValidDevice(d)
  {
    (g: nat) => if on(g) then DefectAt(d, g) else 0.0
  }

  /** The defect of a boundary is the sum of the defects of its nodes. */
  lemma {:induction false} DefectByNodes(d: Device, on: nat -> bool, n: nat)
    requires ValidDevice(d) && n <= d.nodes
    ensures DeviceDefect(d, OnBoundary(FirstOf(on, n))) == Sum(DefectsOn(d, on), n)
  {
    hide DeviceDefect, ValidDevice;
    var none, w := OnBoundary(Nothing()), OnBoundary(FirstOf(on, n));
    NoDefectOfNothing(d);
    if n == 0 {
      DefectAdds(d, none, none, w);
    } else {
      DefectByNodes(d, on, n - 1);
      var a := OnBoundary(FirstOf(on, n - 1));
      if on(n - 1) {
        DefectAdds(d, a, OnBoundary(Single(n - 1)), w);
      } else {
        DefectAdds(d, a, none, w);
      }
    }
  }

  // ---------------------------------------------------------------------------------------
  // Agreement

  /** Both evaluations give the same current for every boundary. */
  ghost predicate AlwaysAgree(d: Device)
    requires ValidDevice(d)
  {
    forall on: seq<nat -> bool>, list: seq<BoundaryElement>, k: nat :: k < |on| && Complete(d, on, list, k) ==>
      CompactCurrent(d, on, list, k) == TerminalCurrent(d, OnBoundary(on[k]))
  }

  /** Every cell once. */
  function AllCells(n: nat): (list: seq<BoundaryElement>)
    ensures |list| == n
  {
    if n == 0 then [] else AllCells(n - 1) + [BoundaryElement(n - 1, 0)]
  }

  lemma {:induction false} AllCounted(n: nat, cell: nat)
    ensures Count(AllCells(n), 0, cell) == if cell < n then 1 else 0
  {
    if n > 0 {
      AllCounted(n - 1, cell);
      assert AllCells(n)[..n - 1] == AllCells(n - 1);
    }
  }

  lemma AgreeAt(d: Device, on: seq<nat -> bool>, list: seq<BoundaryElement>, k: nat)
    requires ValidDevice(d) && k < |on| && Complete(d, on, list, k)
    ensures CompactCurrent(d, on, list, k) == TerminalCurrent(d, OnBoundary(on[k]))
      <==> DeviceDefect(d, OnBoundary(on[k])) == 0.0
  {
    hide CompactCurrent, TerminalCurrent, Complete, CellDefect, Sum;
    CompactDefect(d, on, list, k);
    forall cell: nat | cell < |d.cells|
      ensures Defects(d, on[k])(cell) == WeightedDefects(d, OnBoundary(on[k]))(cell)
    {}
    hide Defects, WeightedDefects, OnBoundary;
    SumEqual(Defects(d, on[k]), WeightedDefects(d, OnBoundary(on[k])), |d.cells|);
  }

  /** The compact currents equal the global ones for every boundary if and only if no node has a
      defect. */
  lemma AgreeByNodes(d: Device)
    requires ValidDevice(d)
    ensures AlwaysAgree(d) <==> forall g: nat :: g < d.nodes ==> DefectAt(d, g) == 0.0
  {
    hide CompactCurrent, TerminalCurrent, DeviceDefect, ValidDevice;
    if AlwaysAgree(d) {
      forall g: nat | g < d.nodes ensures DefectAt(d, g) == 0.0 {
        var on, list := [Single(g)], AllCells(|d.cells|);
        forall cell: nat | cell < |d.cells| ensures Count(list, 0, cell) == 1 { AllCounted(|d.cells|, cell); }
        assert Complete(d, on, list, 0);
        AgreeAt(d, on, list, 0);
      }
    }
    if forall g: nat :: g < d.nodes ==> DefectAt(d, g) == 0.0 {
      forall on: seq<nat -> bool>, list: seq<BoundaryElement>, k: nat | k < |on| && Complete(d, on, list, k)
        ensures CompactCurrent(d, on, list, k) == TerminalCurrent(d, OnBoundary(on[k]))
      {
        NoDefectAnywhere(d, on[k]);
        AgreeAt(d, on, list, k);
      }
    }
  }

  lemma NoDefectAnywhere(d: Device, on: nat -> bool)
    requires ValidDevice(d) && forall g: nat :: g < d.nodes ==> DefectAt(d, g) == 0.0
    ensures DeviceDefect(d, OnBoundary(on)) == 0.0
  {
    hide DeviceDefect, ValidDevice;
    DefectByNodes(d, on, d.nodes);
    NoDefectOfNothing(d);
    DefectAdds(d, OnBoundary(FirstOf(on, d.nodes)), OnBoundary(Nothing()), OnBoundary(on));
    forall g: nat | g < d.nodes ensures DefectsOn(d, on)(g) == 0.0 {}
    hide DefectsOn;
    SumZero(DefectsOn(d, on), d.nodes);
  }
}
