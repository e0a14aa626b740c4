/** Terminal currents by test functions. The global loop weighs every node with a test function
    of the contact; the compact loop visits only the elements at the boundary and weighs the
    nodes on it with one. */
module TerminalCurrents {
  import opened Calculus
  import opened Forms
  import opened BoxMesh

  /** A carrier of an element with its nodal quasi-Fermi potentials. */
  datatype Carrier = Carrier(charge: real, positive: bool, qf: seq<real>)

  /** A quadrature point: shape functions and gradients by node; conductivity, thermoelectric
      power and net recombination rate by carrier. */
  datatype QPoint = QPoint(jxw: real, phi: seq<real>, dphi: seq<Vec>, cond: seq<real>, thermo: seq<real>,
                           rate: seq<real>)

  datatype Cell = Cell(nodes: seq<nat>, temperature: seq<real>, carriers: seq<Carrier>, points: seq<QPoint>)

  /** Constants (elementary charge and potential scaling) and the elements. */
  datatype Device = Device(e: real, phi0: real, nodes: nat, cells: seq<Cell>)

  ghost predicate ValidPoint(c: Cell, q: QPoint) {
    && |q.phi| == |q.dphi| == |c.nodes|
    && |q.cond| == |q.thermo| == |q.rate| == |c.carriers|
  }

  ghost predicate ValidCell(c: Cell) {
    && |c.temperature| == |c.nodes|
    && (forall v :: 0 <= v < |c.carriers| ==> |c.carriers[v].qf| == |c.nodes|)
    && forall i :: 0 <= i < |c.points| ==> ValidPoint(c, c.points[i])
  }

  ghost predicate ValidDevice(d: Device) {
    forall k :: 0 <= k < |d.cells| ==>
      ValidCell(d.cells[k]) && forall n :: 0 <= n < |d.cells[k].nodes| ==> d.cells[k].nodes[n] < d.nodes
  }

  function Plus3(a: Vec, b: Vec): Vec { Vec(a.x + b.x, a.y + b.y, a.z + b.z) }

  function Times3(k: real, a: Vec): Vec { Vec(k * a.x, k * a.y, k * a.z) }

  const ZERO := Vec(0.0, 0.0, 0.0)

  /** Gradient of the nodal values of the first n nodes. */
  function Gradient(dphi: seq<Vec>, f: seq<real>, n: nat): Vec
    requires n <= |dphi| && n <= |f|
  {
    if n == 0 then ZERO else Plus3(Gradient(dphi, f, n - 1), Times3(f[n - 1], dphi[n - 1]))
  }

  /** e * charge * conductivity * quadrature weight. */
  function Sigma(d: Device, c: Cell, q: QPoint, v: nat): real
    requires ValidPoint(c, q) && v < |c.carriers|
  {
    q.jxw * (d.e * c.carriers[v].charge * q.cond[v])
  }

  function SignOf(positive: bool): real { if positive then 1.0 else -1.0 }

  function FermiGradient(d: Device, c: Cell, q: QPoint, v: nat): Vec
    requires ValidCell(c) && ValidPoint(c, q) && v < |c.carriers|
  {
    Times3(d.phi0, Gradient(q.dphi, c.carriers[v].qf, |c.nodes|))
  }

  function TemperatureGradient(c: Cell, q: QPoint): Vec
    requires ValidCell(c) && ValidPoint(c, q)
  {
    Gradient(q.dphi, c.temperature, |c.nodes|)
  }

  /** Current driven by the quasi-Fermi potential alone. */
  function Drift(d: Device, c: Cell, q: QPoint, v: nat): Vec
    requires ValidCell(c) && ValidPoint(c, q) && v < |c.carriers|
  {
    Times3(Sigma(d, c, q, v), Times3(SignOf(c.carriers[v].positive), FermiGradient(d, c, q, v)))
  }

  /** Current including the temperature gradient. */
  function Current(d: Device, c: Cell, q: QPoint, v: nat): Vec
    requires ValidCell(c) && ValidPoint(c, q) && v < |c.carriers|
  {
    Times3(Sigma(d, c, q, v), Plus3(Times3(SignOf(c.carriers[v].positive), FermiGradient(d, c, q, v)),
                                    Times3(q.thermo[v], TemperatureGradient(c, q))))
  }

  /** Charge generated by one carrier. */
  function Rate(d: Device, c: Cell, q: QPoint, v: nat): real
    requires ValidPoint(c, q) && v < |c.carriers|
  {
    -q.jxw * d.e * c.carriers[v].charge * q.rate[v]
  }

  function RateOf(d: Device, c: Cell, q: QPoint): nat -> real
    requires ValidPoint(c, q)
  {
    (v: nat) => if v < |c.carriers| then Rate(d, c, q, v) else 0.0
  }

  /** Charge generated by all carriers of the point. */
  function NetRate(d: Device, c: Cell, q: QPoint): real
    requires ValidPoint(c, q)
  {
    Sum(RateOf(d, c, q), |c.carriers|)
  }

  // ---------------------------------------------------------------------------------------
  // The global loop as a form

  /** The part of a generation that belongs to a node. */
  function Share(r: real, phi: real): real { r * phi }

  function GlobalValue(d: Device, c: Cell, q: QPoint, n: nat, v: nat): real
    requires ValidCell(c) && ValidPoint(c, q) && n < |c.nodes| && v < |c.carriers|
  {
    Inner(Current(d, c, q, v), q.dphi[n]) + Share(Rate(d, c, q, v), q.phi[n])
  }

  function CarrierAdds(d: Device, c: Cell, q: QPoint, n: nat): nat -> seq<Add<nat>>
    requires ValidCell(c) && ValidPoint(c, q) && n < |c.nodes|
  {
    (v: nat) => if v < |c.carriers| then [Add(c.nodes[n], GlobalValue(d, c, q, n, v))] else []
  }

  function NodeAdds1(d: Device, c: Cell, q: QPoint): nat -> seq<Add<nat>>
    requires ValidCell(c) && ValidPoint(c, q)
  {
    (n: nat) => if n < |c.nodes| then Flat(CarrierAdds(d, c, q, n), |c.carriers|) else []
  }

  function PointAdds(d: Device, c: Cell): nat -> seq<Add<nat>>
    requires ValidCell(c)
  {
    (i: nat) => if i < |c.points| then Flat(NodeAdds1(d, c, c.points[i]), |c.nodes|) else []
  }

  function CellAdds(d: Device): nat -> seq<Add<nat>>
    requires ValidDevice(d)
  {
    (k: nat) => if k < |d.cells| then Flat(PointAdds(d, d.cells[k]), |d.cells[k].points|) else []
  }

  /** Nodal balances of the total current: entry g is the weak residual at node g. */
  function CurrentForm(d: Device): seq<Add<nat>>
    requires ValidDevice(d)
  {
    Flat(CellAdds(d), |d.cells|)
  }

  /** Terminal current for a test function. */
  function TerminalCurrent(d: Device, test: nat -> real): real
    requires ValidDevice(d)
  {
    -Dot(CurrentForm(d), test)
  }

  // ---------------------------------------------------------------------------------------
  // The global loop

  /** Every contact's current is minus its tested form. */
  ghost predicate Collected(current: seq<real>, tests: seq<nat -> real>, adds: seq<Add<nat>>) {
    |current| == |tests| && forall k :: 0 <= k < |tests| ==> current[k] == -Dot(adds, tests[k])
  }

  /** One node of one quadrature point, for every contact and every carrier. */
  method AddNode(d: Device, c: Cell, q: QPoint, n: nat, curr: seq<Vec>, netRate: seq<real>, current: array<real>,
                 tests: seq<nat -> real>, ghost adds: seq<Add<nat>>)
    requires ValidCell(c) && ValidPoint(c, q) && n < |c.nodes|
    requires |curr| == |netRate| == |c.carriers|
    requires forall v: nat :: v < |c.carriers| ==> curr[v] == Current(d, c, q, v) && netRate[v] == Rate(d, c, q, v)
    requires Collected(current[..], tests, adds)
    modifies current
    ensures Collected(current[..], tests, adds + NodeAdds1(d, c, q)(n))
  {
    hide Dot, Flat, GlobalValue, Current, Rate;
    ghost var list := CarrierAdds(d, c, q, n);
    for k := 0 to |tests|
      invariant current.Length == |tests|
      invariant forall j :: k <= j < |tests| ==> current[j] == -Dot(adds, tests[j])
      invariant forall j :: 0 <= j < k ==> current[j] == -Dot(adds + Flat(list, |c.carriers|), tests[j])
    {
      FlatNone(adds, list);
      for v := 0 to |c.carriers|
        invariant forall j :: k < j < |tests| ==> current[j] == -Dot(adds, tests[j])
        invariant forall j :: 0 <= j < k ==> current[j] == -Dot(adds + Flat(list, |c.carriers|), tests[j])
        invariant current[k] == -Dot(adds + Flat(list, v), tests[k])
      {
        var value := (Inner(curr[v], q.dphi[n]) + Share(netRate[v], q.phi[n])) * tests[k](c.nodes[n]);
        FlatNext(adds, list, v);
        CarrierAddsAt(d, c, q, n, v);
        DotAppend(adds + Flat(list, v), Add(c.nodes[n], GlobalValue(d, c, q, n, v)), tests[k]);
        assert GlobalValue(d, c, q, n, v) == Inner(curr[v], q.dphi[n]) + Share(netRate[v], q.phi[n]) by {
          GlobalValueAt(d, c, q, n, v);
        }
        current[k] := current[k] - value;
      }
    }
  }

  lemma CarrierAddsAt(d: Device, c: Cell, q: QPoint, n: nat, v: nat)
    requires ValidCell(c) && ValidPoint(c, q) && n < |c.nodes| && v < |c.carriers|
    ensures CarrierAdds(d, c, q, n)(v) == [Add(c.nodes[n], GlobalValue(d, c, q, n, v))]
  {}

  lemma GlobalValueAt(d: Device, c: Cell, q: QPoint, n: nat, v: nat)
    requires ValidCell(c) && ValidPoint(c, q) && n < |c.nodes| && v < |c.carriers|
    ensures GlobalValue(d, c, q, n, v) == Inner(Current(d, c, q, v), q.dphi[n]) + Share(Rate(d, c, q, v), q.phi[n])
  {}

  lemma GradientStep(scale: real, f: real, w: real, g: Vec, dphi: Vec, r: Vec)
    requires r == Times3(scale, g) && w == scale * f
    ensures Plus3(r, Times3(w, dphi)) == Times3(scale, Plus3(g, Times3(f, dphi)))
  {
    DistributeOver(scale, g.x, f * dphi.x);
    DistributeOver(scale, g.y, f * dphi.y);
    DistributeOver(scale, g.z, f * dphi.z);
    assert scale * f * dphi.x == scale * (f * dphi.x);
    assert scale * f * dphi.y == scale * (f * dphi.y);
    assert scale * f * dphi.z == scale * (f * dphi.z);
  }

  lemma DistributeOver(k: real, x: real, y: real)
    ensures k * (x + y) == k * x + k * y
  {}

  /** Gradient at a quadrature point, node by node. */
  method ComputeGradient(dphi: seq<Vec>, f: seq<real>, scale: real) returns (g: Vec)
    requires |dphi| == |f|
    ensures g == Times3(scale, Gradient(dphi, f, |f|))
  {
    hide Times3, Plus3;
    g := ZERO;
    assert ZERO == Times3(scale, ZERO) by { ZeroScaled(scale); }
    for i := 0 to |f|
      invariant g == Times3(scale, Gradient(dphi, f, i))
    {
      var w := scale * f[i];
      GradientStep(scale, f[i], w, Gradient(dphi, f, i), dphi[i], g);
      assert Gradient(dphi, f, i + 1) == Plus3(Gradient(dphi, f, i), Times3(f[i], dphi[i]));
      g := Plus3(g, Times3(w, dphi[i]));
    }
  }

  lemma ZeroScaled(scale: real)
    ensures ZERO == Times3(scale, ZERO)
  {}

  lemma OneScaled(a: Vec)
    ensures Times3(1.0, a) == a
  {}

  lemma CurrentAt(d: Device, c: Cell, q: QPoint, v: nat, sigma: real, rate: real, gradQf: Vec, dT: Vec, flow: Vec)
    requires ValidCell(c) && ValidPoint(c, q) && v < |c.carriers|
    requires sigma == q.jxw * (d.e * c.carriers[v].charge * q.cond[v])
    requires rate == -q.jxw * d.e * c.carriers[v].charge * q.rate[v]
    requires gradQf == FermiGradient(d, c, q, v) && dT == TemperatureGradient(c, q)
    requires flow == Times3(sigma, Plus3(Times3(SignOf(c.carriers[v].positive), gradQf), Times3(q.thermo[v], dT)))
    ensures flow == Current(d, c, q, v) && rate == Rate(d, c, q, v)
  {
    hide Times3, Plus3, Gradient;
    assert sigma == Sigma(d, c, q, v);
    hide Sigma, FermiGradient, TemperatureGradient;
  }

  /** Currents and generation of all carriers at a quadrature point. */
  method CarrierCurrents(d: Device, c: Cell, q: QPoint) returns (curr: seq<Vec>, netRate: seq<real>)
    requires ValidCell(c) && ValidPoint(c, q)
    ensures |curr| == |netRate| == |c.carriers|
    ensures forall v: nat :: v < |c.carriers| ==> curr[v] == Current(d, c, q, v) && netRate[v] == Rate(d, c, q, v)
  {
    hide Times3, Plus3, Gradient;
    curr, netRate := [], [];
    var dT := ComputeGradient(q.dphi, c.temperature, 1.0);
    OneScaled(TemperatureGradient(c, q));
    for v := 0 to |c.carriers|
      invariant |curr| == |netRate| == v
      invariant forall i: nat :: i < v ==> curr[i] == Current(d, c, q, i) && netRate[i] == Rate(d, c, q, i)
    {
      var gradQf := ComputeGradient(q.dphi, c.carriers[v].qf, d.phi0);
      var sigma := q.jxw * (d.e * c.carriers[v].charge * q.cond[v]);
      var rate := -q.jxw * d.e * c.carriers[v].charge * q.rate[v];
      var flow := Times3(sigma, Plus3(Times3(SignOf(c.carriers[v].positive), gradQf), Times3(q.thermo[v], dT)));
      CurrentAt(d, c, q, v, sigma, rate, gradQf, dT, flow);
      curr, netRate := curr + [flow], netRate + [rate];
    }
  }

  method AddPoint(d: Device, c: Cell, q: QPoint, current: array<real>, tests: seq<nat -> real>,
                  ghost adds: seq<Add<nat>>)
    requires ValidCell(c) && ValidPoint(c, q) && Collected(current[..], tests, adds)
    modifies current
    ensures Collected(current[..], tests, adds + Flat(NodeAdds1(d, c, q), |c.nodes|))
  {
    hide Collected, Flat, NodeAdds1, Current, Rate;
    var curr, netRate := CarrierCurrents(d, c, q);
    ghost var list := NodeAdds1(d, c, q);
    FlatNone(adds, list);
    for n := 0 to |c.nodes|
      invariant Collected(current[..], tests, adds + Flat(list, n))
    {
      FlatNext(adds, list, n);
      AddNode(d, c, q, n, curr, netRate, current, tests, adds + Flat(list, n));
    }
  }

  method AddCell(d: Device, c: Cell, current: array<real>, tests: seq<nat -> real>, ghost adds: seq<Add<nat>>)
    requires ValidCell(c) && Collected(current[..], tests, adds)
    modifies current
    ensures Collected(current[..], tests, adds + Flat(PointAdds(d, c), |c.points|))
  {
    hide Collected, Flat, NodeAdds1;
    ghost var list := PointAdds(d, c);
    FlatNone(adds, list);
    for i := 0 to |c.points|
      invariant Collected(current[..], tests, adds + Flat(list, i))
    {
      FlatNext(adds, list, i);
      AddPoint(d, c, c.points[i], current, tests, adds + Flat(list, i));
    }
  }

  method Reset(current: array<real>)
    modifies current
    ensures forall k :: 0 <= k < current.Length ==> current[k] == 0.0
  {
    for k := 0 to current.Length
      invariant forall j :: 0 <= j < k ==> current[j] == 0.0
    {
      current[k] := 0.0;
    }
  }

  lemma NothingCollected(current: seq<real>, tests: seq<nat -> real>)
    requires |current| == |tests| && forall k :: 0 <= k < |current| ==> current[k] == 0.0
    ensures Collected(current, tests, [])
  {}

  /** Terminal currents of all contacts. */
  method GlobalCurrents(d: Device, tests: seq<nat -> real>, current: array<real>)
    requires ValidDevice(d) && current.Length == |tests|
    modifies current
    ensures forall k :: 0 <= k < |tests| ==> current[k] == TerminalCurrent(d, tests[k])
  {
    hide Collected, Flat, PointAdds, Dot;
    Reset(current);
    NothingCollected(current[..], tests);
    ghost var list := CellAdds(d);
    FlatNone([], list);
    for k := 0 to |d.cells|
      invariant Collected(current[..], tests, [] + Flat(list, k))
    {
      FlatNext([], list, k);
      AddCell(d, d.cells[k], current, tests, [] + Flat(list, k));
    }
    assert [] + Flat(list, |d.cells|) == CurrentForm(d);
    CollectedAt(current[..], tests, CurrentForm(d));
  }

  lemma CollectedAt(current: seq<real>, tests: seq<nat -> real>, adds: seq<Add<nat>>)
    requires Collected(current, tests, adds)
    ensures |current| == |tests| && forall k :: 0 <= k < |tests| ==> current[k] == -Dot(adds, tests[k])
  {}
}
