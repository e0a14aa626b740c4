/** The outer iteration of the gray transport solver: sweep over all directions, then average
    the directional solutions into the new equilibrium energy. */
module GraySolver {
  import opened Calculus
  import opened Forms
  import opened BoxMesh
  import opened GraySystem

  /** The cell at the other end of a periodic boundary, if one is found. */
  datatype Partner = Found(cell: nat) | NotFound

  /** Boundary conditions of one outer side; cell is the cell behind it. mirror(now, k) tells
      whether slice k is the specular image of slice now. Plain walls reflect specularly. */
  datatype Boundary =
    | Periodic(cell: nat, partner: Partner)
    | Reservoir(value: real)
    | Diffusive(cell: nat, normal: Vec, specularity: real, mirror: (nat, nat) -> bool)
    | Wall(cell: nat, mirror: (nat, nat) -> bool)

  type Solver = seq<Row> -> seq<real>

  /** The full problem: total is the full solid angle, factor scales the heat flux. */
  datatype Problem = Problem(grid: Grid, slices: seq<Slice>, boundaries: seq<Boundary>, solve: Solver,
                             total: real, factor: real)

  /** Solutions of the last sweep by slice and cell. */
  type Stored = seq<seq<real>>

  ghost predicate ShapedLike(p: Problem, sd: Stored) {
    |sd| == |p.slices| && forall k :: 0 <= k < |sd| ==> |sd[k]| == |p.grid.cells|
  }

  ghost predicate ValidProblem(p: Problem) {
    && ValidGrid(p.grid) && p.total > 0.0
    && (forall k :: 0 <= k < |p.slices| ==> p.slices[k].dOmega > 0.0)
    && (forall b :: 0 <= b < |p.boundaries| ==> ValidBoundary(p, p.boundaries[b]))
    && (forall c, s :: 0 <= c < |p.grid.cells| && 0 <= s < |p.grid.cells[c].sides| && p.grid.cells[c].sides[s].Open? ==>
          p.grid.cells[c].sides[s].boundary < |p.boundaries|)
    && forall rows: seq<Row> :: |rows| == |p.grid.cells| ==> |p.solve(rows)| == |rows|
  }

  /** A diffusive boundary sees at least one outgoing slice. */
  ghost predicate ValidBoundary(p: Problem, b: Boundary) {
    && (b.Diffusive? ==> b.cell < |p.grid.cells| && OutAngle(p.slices, b.normal, |p.slices|) > 0.0)
    && (b.Wall? ==> b.cell < |p.grid.cells|)
    && (b.Periodic? ==> b.cell < |p.grid.cells| && (b.partner.Found? ==> b.partner.cell < |p.grid.cells|))
  }

  // ---------------------------------------------------------------------------------------
  // Boundary values

  predicate Outgoing(slices: seq<Slice>, normal: Vec, k: nat) {
    k < |slices| && Inner(slices[k].dir, normal) > 0.0
  }

  function OutWeight(slices: seq<Slice>, normal: Vec): nat -> real {
    (k: nat) => if Outgoing(slices, normal, k) then slices[k].dOmega else 0.0
  }

  function OutAngle(slices: seq<Slice>, normal: Vec, n: nat): real {
    Sum(OutWeight(slices, normal), n)
  }

  function OutEnergy(slices: seq<Slice>, normal: Vec, sd: Stored, cell: nat): nat -> real {
    (k: nat) => if Outgoing(slices, normal, k) && k < |sd| && cell < |sd[k]| then sd[k][cell] * slices[k].dOmega
      else 0.0
  }

  /** The last slice below n that mirrors slice now; n if there is none. */
  function LastMirror(mirror: (nat, nat) -> bool, now: nat, n: nat): (k: nat)
    ensures k <= n && (k < n ==> k != now && mirror(now, k))
    ensures k == n ==> forall i: nat :: i < n && i != now ==> !mirror(now, i)
    ensures k < n ==> forall i: nat :: k < i < n && i != now ==> !mirror(now, i)
  {
    if n == 0 then 0
    else if n - 1 != now && mirror(now, n - 1) then n - 1
    else
      var k := LastMirror(mirror, now, n - 1);
      if k == n - 1 then n else k
  }

  function StoredAt(sd: Stored, cell: nat): nat -> real {
    (k: nat) => if k < |sd| && cell < |sd[k]| then sd[k][cell] else 0.0
  }

  /** Energy of the mirrored slice; nothing if there is none. */
  function Specular(mirror: (nat, nat) -> bool, now: nat, sd: Stored, cell: nat): real {
    var k := LastMirror(mirror, now, |sd|);
    if k < |sd| && cell < |sd[k]| then sd[k][cell] else 0.0
  }

  function BoundaryValueOf(p: Problem, b: Boundary, now: nat, sd: Stored, e: seq<real>): real
    requires ValidBoundary(p, b) && |e| == |p.grid.cells|
  {
    match b
    case Reservoir(v) => v
    case Periodic(cell, Found(other)) => StoredAt(sd, other)(now) + (e[cell] - e[other])
    case Periodic(cell, NotFound) => e[cell]
    case Wall(cell, mirror) => Specular(mirror, now, sd, cell)
    case Diffusive(cell, normal, q, mirror) =>
      q * Specular(mirror, now, sd, cell)
      + (1.0 - q) * (Sum(OutEnergy(p.slices, normal, sd, cell), |p.slices|) / OutAngle(p.slices, normal, |p.slices|))
  }

  /** The value a boundary gives to slice now. */
  method BoundaryValue(p: Problem, b: Boundary, now: nat, sd: Stored, e: seq<real>) returns (value: real)
    requires ValidBoundary(p, b) && ShapedLike(p, sd) && |e| == |p.grid.cells| && now < |p.slices|
    ensures value == BoundaryValueOf(p, b, now, sd, e)
  {
    match b
    case Reservoir(v) =>
      value := v;
    case Periodic(cell, partner) =>
      var there := 0.0;
      value := 0.0;
      if partner.Found? {
        value, there := sd[now][partner.cell], e[partner.cell];
      }
      var deltaT := e[cell] - there;
      value := value + deltaT;
    case Wall(cell, mirror) =>
      value := SpecularPart(p, mirror, now, sd, cell);
    case Diffusive(cell, normal, q, mirror) =>
      var angle, diffuse := 0.0, 0.0;
      for k := 0 to |p.slices|
        invariant angle == OutAngle(p.slices, normal, k)
        invariant diffuse == Sum(OutEnergy(p.slices, normal, sd, cell), k)
      {
        if Inner(p.slices[k].dir, normal) > 0.0 {
          angle := angle + p.slices[k].dOmega;
          diffuse := diffuse + sd[k][cell] * p.slices[k].dOmega;
        }
      }
      diffuse := diffuse / angle;
      var specular := SpecularPart(p, mirror, now, sd, cell);
      value := q * specular + (1.0 - q) * diffuse;
  }

  method SpecularPart(p: Problem, mirror: (nat, nat) -> bool, now: nat, sd: Stored, cell: nat) returns (value: real)
    requires ShapedLike(p, sd) && cell < |p.grid.cells|
    ensures value == Specular(mirror, now, sd, cell)
  {
    value := 0.0;
    for k := 0 to |p.slices|
      invariant var m := LastMirror(mirror, now, k); value == if m < k then sd[m][cell] else 0.0
    {
      if now != k && mirror(now, k) {
        value := sd[k][cell];
      }
    }
  }

  /** All boundary values for slice now. */
  function BoundaryData(p: Problem, now: nat, sd: Stored, e: seq<real>): nat -> real
    requires ValidProblem(p) && |e| == |p.grid.cells|
  {
    (b: nat) => if b < |p.boundaries| then BoundaryValueOf(p, p.boundaries[b], now, sd, e) else 0.0
  }

  // ---------------------------------------------------------------------------------------
  // One sweep

  /** Equilibrium energies with what the heat sources add. */
  function Supplies(p: Problem, e: seq<real>): (s: seq<real>)
    requires ValidGrid(p.grid) && |e| == |p.grid.cells|
    ensures |s| == |e| && forall c :: 0 <= c < |s| ==> s[c] == p.grid.cells[c].Supply(e[c])
  {
    seq(|e|, c requires 0 <= c < |e| => p.grid.cells[c].Supply(e[c]))
  }

  function RowsFor(p: Problem, e: seq<real>, sd: Stored, k: nat): (rows: seq<Row>)
    requires ValidProblem(p) && |e| == |p.grid.cells| && k < |p.slices|
    ensures |rows| == |e|
    ensures AreRows(p.grid, p.slices[k], Supplies(p, e), BoundaryData(p, k, sd, e), rows)
  {
    seq(|e|, c requires 0 <= c < |e| => CellRow(p.slices[k], p.grid.cells[c], p.grid.cells[c].Supply(e[c]),
      BoundaryData(p, k, sd, e)))
  }

  /** Directional solutions after the first n slices; each slice sees the boundary energies its
      predecessors have just updated. */
  function Swept(p: Problem, e: seq<real>, sd: Stored, n: nat): (r: Stored)
    requires ValidProblem(p) && |e| == |p.grid.cells| && ShapedLike(p, sd) && n <= |p.slices|
    ensures ShapedLike(p, r)
  {
    if n == 0 then sd
    else
      var before := Swept(p, e, sd, n - 1);
      before[n - 1 := p.solve(RowsFor(p, e, before, n - 1))]
  }

  /** Share of slice k in the average energy of cell c. */
  function EnergyShare(p: Problem, sd: Stored, c: nat): nat -> real
    requires p.total > 0.0
  {
    (k: nat) => if k < |p.slices| && k < |sd| && c < |sd[k]| then Product(p.slices[k].dOmega / p.total, sd[k][c])
      else 0.0
  }

  function Energy(p: Problem, sd: Stored, n: nat): (e: seq<real>)
    requires p.total > 0.0
    ensures |e| == |p.grid.cells| && forall c: nat :: c < |e| ==> e[c] == Sum(EnergyShare(p, sd, c), n)
  {
    seq(|p.grid.cells|, c requires 0 <= c < |p.grid.cells| => Sum(EnergyShare(p, sd, c), n))
  }

  function FluxWeight(p: Problem, k: nat, a: Axis): real
    requires k < |p.slices|
  {
    p.factor * Component(p.slices[k].integrated, a)
  }

  function FluxShare(p: Problem, sd: Stored, c: nat, a: Axis): nat -> real {
    (k: nat) => if k < |p.slices| && k < |sd| && c < |sd[k]| then
        Product(FluxWeight(p, k, a), sd[k][c])
      else 0.0
  }

  function Flux(p: Problem, sd: Stored, a: Axis, n: nat): (f: seq<real>)
    ensures |f| == |p.grid.cells| && forall c: nat :: c < |f| ==> f[c] == Sum(FluxShare(p, sd, c, a), n)
  {
    seq(|p.grid.cells|, c requires 0 <= c < |p.grid.cells| => Sum(FluxShare(p, sd, c, a), n))
  }

  /** Energy and boundary energies. */
  datatype State = State(e: seq<real>, sd: Stored)

  ghost predicate ValidState(p: Problem, s: State) {
    |s.e| == |p.grid.cells| && ShapedLike(p, s.sd)
  }

  function Next(p: Problem, s: State): (r: State)
    requires ValidProblem(p) && ValidState(p, s)
    ensures ValidState(p, r)
  {
    var sd := Swept(p, s.e, s.sd, |p.slices|);
    State(Energy(p, sd, |p.slices|), sd)
  }

  function Iterate(p: Problem, s: State, n: nat): (r: State)
    requires ValidProblem(p) && ValidState(p, s)
    ensures ValidState(p, r)
  {
    if n == 0 then s else Next(p, Iterate(p, s, n - 1))
  }

  // ---------------------------------------------------------------------------------------
  // The stopping rule

  /** Settings of the outer iteration; change is the relative difference of a new and an old value,
      conductivity what the heat flux of a sweep gives for the thermal conductivity. */
  datatype Options = Options(maxError: real, maxIter: nat, verbose: bool, computeKappa: bool,
                             norm: seq<real> -> real, conductivity: State -> real, change: (real, real) -> real)

  /** The monitored quantity after n sweeps, and where it starts. */
  function Monitored(p: Problem, o: Options, s: State, n: nat): real
    requires ValidProblem(p) && ValidState(p, s)
  {
    if o.computeKappa then (if n == 0 then 150.0 else o.conductivity(Iterate(p, s, n)))
    else if n == 0 then 0.0 else o.norm(Iterate(p, s, n).e)
  }

  /** The error after n sweeps; only verbose runs evaluate it. */
  function ErrorAfter(p: Problem, o: Options, s: State, n: nat): real
    requires ValidProblem(p) && ValidState(p, s)
  {
    if n == 0 || !o.verbose then 1.0 else o.change(Monitored(p, o, s, n), Monitored(p, o, s, n - 1))
  }

  // ---------------------------------------------------------------------------------------
  // The loops

  function AddScaled(a: seq<real>, w: real, x: seq<real>): (r: seq<real>)
    requires |a| == |x|
    ensures |r| == |a| && forall c :: 0 <= c < |a| ==> r[c] == a[c] + Product(w, x[c])
  {
    seq(|a|, c requires 0 <= c < |a| => a[c] + Product(w, x[c]))
  }

  method AssembleSystem(p: Problem, e: seq<real>, sd: Stored, k: nat) returns (rows: seq<Row>)
    requires ValidProblem(p) && |e| == |p.grid.cells| && ShapedLike(p, sd) && k < |p.slices|
    ensures rows == RowsFor(p, e, sd, k)
  {
    assert forall c :: 0 <= c < |e| ==> p.grid.cells[c].capacity > 0.0;
    hide CellRow, ValidGrid;
    var values := BoundaryValues(p, e, sd, k);
    var bnd: nat -> real := (b: nat) => if b < |values| then values[b] else 0.0;
    rows := [];
    for c := 0 to |e|
      invariant |rows| == c
      invariant forall i: nat :: i < c ==>
        rows[i] == CellRow(p.slices[k], p.grid.cells[i], p.grid.cells[i].Supply(e[i]), BoundaryData(p, k, sd, e))
    {
      var row := AssembleRow(p.slices[k], p.grid.cells[c], e[c], bnd);
      SameData(p.slices[k], p.grid.cells[c], p.grid.cells[c].Supply(e[c]), bnd, BoundaryData(p, k, sd, e));
      rows := rows + [row];
    }
  }

  method BoundaryValues(p: Problem, e: seq<real>, sd: Stored, k: nat) returns (values: seq<real>)
    requires ValidProblem(p) && ShapedLike(p, sd) && |e| == |p.grid.cells| && k < |p.slices|
    ensures |values| == |p.boundaries|
    ensures forall b: nat :: b < |values| ==> values[b] == BoundaryData(p, k, sd, e)(b)
  {
    hide ValidBoundary, BoundaryValueOf, ValidGrid;
    values := [];
    for b := 0 to |p.boundaries|
      invariant |values| == b && forall i: nat :: i < b ==> values[i] == BoundaryValueOf(p, p.boundaries[i], k, sd, e)
    {
      var value := BoundaryValue(p, p.boundaries[b], k, sd, e);
      values := values + [value];
    }
  }

  lemma SameData(d: Slice, c: GCell, supply: real, a: nat -> real, b: nat -> real)
    requires d.dOmega > 0.0 && forall i: nat :: a(i) == b(i)
    ensures CellRow(d, c, supply, a) == CellRow(d, c, supply, b)
  {}

  /** Slices before k are not touched by the update of slice k. */
  lemma EnergyGrows(p: Problem, sd: Stored, x: seq<real>, k: nat, w: real)
    requires p.total > 0.0 && ShapedLike(p, sd) && |x| == |p.grid.cells| && k < |p.slices|
    requires w == p.slices[k].dOmega / p.total
    ensures AddScaled(Energy(p, sd, k), w, x) == Energy(p, sd[k := x], k + 1)
  {
    hide Product;
    forall c: nat | c < |p.grid.cells|
      ensures Sum(EnergyShare(p, sd[k := x], c), k + 1) == Sum(EnergyShare(p, sd, c), k) + Product(w, x[c])
    {
      SumEqual(EnergyShare(p, sd, c), EnergyShare(p, sd[k := x], c), k);
    }
    hide EnergyShare, Sum;
  }

  lemma FluxGrows(p: Problem, sd: Stored, x: seq<real>, a: Axis, k: nat, w: real)
    requires ShapedLike(p, sd) && |x| == |p.grid.cells| && k < |p.slices|
    requires w == FluxWeight(p, k, a)
    ensures AddScaled(Flux(p, sd, a, k), w, x) == Flux(p, sd[k := x], a, k + 1)
  {
    hide Product, FluxWeight;
    forall c: nat | c < |p.grid.cells|
      ensures Sum(FluxShare(p, sd[k := x], c, a), k + 1) == Sum(FluxShare(p, sd, c, a), k) + Product(w, x[c])
    {
      SumEqual(FluxShare(p, sd, c, a), FluxShare(p, sd[k := x], c, a), k);
    }
    hide FluxShare, Sum;
  }

  lemma NothingYet(p: Problem, sd: Stored, zero: seq<real>)
    requires p.total > 0.0 && |zero| == |p.grid.cells| && forall c :: 0 <= c < |zero| ==> zero[c] == 0.0
    ensures zero == Energy(p, sd, 0) && forall a: Axis :: zero == Flux(p, sd, a, 0)
  {}

  class GrayTransport {
    const p: Problem
    var energy: seq<real>
    var stored: Stored
    var fluxX: seq<real>
    var fluxY: seq<real>
    var fluxZ: seq<real>

    ghost function Contents(): State
      reads this
    {
      State(energy, stored)
    }

    ghost predicate Valid()
      reads this
    {
      ValidProblem(p) && ValidState(p, Contents())
    }

    /** The boundary energies start from the equilibrium energy. */
    constructor (p: Problem, energy: seq<real>)
      requires ValidProblem(p) && |energy| == |p.grid.cells|
      ensures Valid() && this.p == p && Contents() == State(energy, seq(|p.slices|, _ => energy))
    {
      this.p, this.energy := p, energy;
      stored := seq(|p.slices|, _ => energy);
      fluxX, fluxY, fluxZ := energy, energy, energy;
    }

    /** One sweep over all slices. */
    method Sweep()
      requires Valid()
      modifies this
      ensures Valid() && Contents() == Next(p, old(Contents()))
      ensures fluxX == Flux(p, stored, X, |p.slices|)
      ensures fluxY == Flux(p, stored, Y, |p.slices|)
      ensures fluxZ == Flux(p, stored, Z, |p.slices|)
    {
      hide ValidGrid, ValidBoundary, RowsFor, Energy, Flux, Component;
      var zero := seq(|p.grid.cells|, _ => 0.0);
      var energyNew := zero;
      fluxX, fluxY, fluxZ := zero, zero, zero;
      NothingYet(p, stored, zero);
      ghost var was := stored;
      for k := 0 to |p.slices|
        invariant energy == old(energy) && ShapedLike(p, stored)
        invariant stored == Swept(p, energy, was, k) && energyNew == Energy(p, stored, k)
        invariant fluxX == Flux(p, stored, X, k) && fluxY == Flux(p, stored, Y, k) && fluxZ == Flux(p, stored, Z, k)
      {
        var rows := AssembleSystem(p, energy, stored, k);
        var x := p.solve(rows);
        AddSlice(k, x);
        var w := p.slices[k].dOmega / p.total;
        EnergyGrows(p, stored, x, k, w);
        energyNew := AddScaled(energyNew, w, x);
        stored := stored[k := x];
      }
      energy := energyNew;
    }

    /** The heat flux collects the solution of slice k. */
    method AddSlice(k: nat, x: seq<real>)
      requires k < |p.slices| && |x| == |p.grid.cells| && ShapedLike(p, stored)
      requires fluxX == Flux(p, stored, X, k) && fluxY == Flux(p, stored, Y, k) && fluxZ == Flux(p, stored, Z, k)
      modifies this`fluxX, this`fluxY, this`fluxZ
      ensures fluxX == Flux(p, stored[k := x], X, k + 1)
      ensures fluxY == Flux(p, stored[k := x], Y, k + 1)
      ensures fluxZ == Flux(p, stored[k := x], Z, k + 1)
    {
      var d := p.slices[k].integrated;
      var wx, wy, wz := p.factor * d.x, p.factor * d.y, p.factor * d.z;
      assert wx == FluxWeight(p, k, X) && wy == FluxWeight(p, k, Y) && wz == FluxWeight(p, k, Z);
      hide FluxWeight, Flux;
      FluxGrows(p, stored, x, X, k, wx);
      FluxGrows(p, stored, x, Y, k, wy);
      FluxGrows(p, stored, x, Z, k, wz);
      fluxX, fluxY, fluxZ := AddScaled(fluxX, wx, x), AddScaled(fluxY, wy, x), AddScaled(fluxZ, wz, x);
    }

    /** Sweeps until the relative change of the monitored quantity, the energy norm or the thermal
        conductivity, is small, or the iterations are used up. */
    method SolveGray(o: Options) returns (iterations: nat)
      requires Valid()
      modifies this
      ensures Valid() && iterations <= o.maxIter
      ensures Contents() == Iterate(p, old(Contents()), iterations)
      ensures forall i: nat :: i < iterations ==> ErrorAfter(p, o, old(Contents()), i) > o.maxError
      ensures iterations == o.maxIter || ErrorAfter(p, o, old(Contents()), iterations) <= o.maxError
      ensures !o.verbose && o.maxError < 1.0 ==> iterations == o.maxIter
      ensures iterations > 0 ==> fluxX == Flux(p, stored, X, |p.slices|) && fluxY == Flux(p, stored, Y, |p.slices|)
                                 && fluxZ == Flux(p, stored, Z, |p.slices|)
    {
      hide Next, Flux, ValidProblem, ValidState;
      ghost var start := Contents();
      var err, oldNorm, kappa := 1.0, 0.0, 150.0;
      iterations := 0;
      while err > o.maxError && iterations < o.maxIter
        invariant Valid() && iterations <= o.maxIter
        invariant Contents() == Iterate(p, start, iterations)
        invariant err == ErrorAfter(p, o, start, iterations)
        invariant forall i: nat :: i < iterations ==> ErrorAfter(p, o, start, i) > o.maxError
        invariant o.verbose ==> (if o.computeKappa then kappa else oldNorm) == Monitored(p, o, start, iterations)
        invariant iterations > 0 ==> fluxX == Flux(p, stored, X, |p.slices|) && fluxY == Flux(p, stored, Y, |p.slices|)
                                     && fluxZ == Flux(p, stored, Z, |p.slices|)
        decreases o.maxIter - iterations
      {
        Sweep();
        var energyNorm := o.norm(energy);
        iterations := iterations + 1;
        if o.verbose {
          if o.computeKappa {
            var kappaNew := o.conductivity(State(energy, stored));
            err := o.change(kappaNew, kappa);
            kappa := kappaNew;
          } else {
            err := o.change(energyNorm, oldNorm);
            oldNorm := energyNorm;
          }
        }
      }
    }
  }
}
