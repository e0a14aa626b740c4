/** Bounds for the gray solver: no sweep leaves the range of the data, and a uniform field in
    equilibrium with its boundaries is stationary. */
module GrayRange {
  import opened Calculus
  import opened Forms
  import opened BoxMesh
  import opened GraySystem
  import opened GraySolver

  // ---------------------------------------------------------------------------------------
  // Averages

  /** Terms w*x with weights of one sign stay between the bounds of x. */
  lemma {:induction false} AverageBounds(f: nat -> real, w: nat -> real, x: nat -> real, n: nat, lo: real, hi: real)
    requires forall k: nat :: k < n ==> w(k) >= 0.0 && f(k) == Product(w(k), x(k)) && (w(k) > 0.0 ==> lo <= x(k) <= hi)
    ensures lo * Sum(w, n) <= Sum(f, n) <= hi * Sum(w, n)
  {
    if n > 0 {
      AverageBounds(f, w, x, n - 1, lo, hi);
      OneTerm(w(n - 1), x(n - 1), lo, hi);
      hide Product;
      Distribute(lo, Sum(w, n - 1), w(n - 1));
      Distribute(hi, Sum(w, n - 1), w(n - 1));
    }
  }

  lemma OneTerm(w: real, x: real, lo: real, hi: real)
    requires w >= 0.0 && (w > 0.0 ==> lo <= x <= hi)
    ensures lo * w <= Product(w, x) <= hi * w
  {}

  lemma QuotientBounds(a: real, b: real, lo: real, hi: real)
    requires b > 0.0 && lo * b <= a <= hi * b
    ensures lo <= a / b <= hi
  {}

  // ---------------------------------------------------------------------------------------
  // Boundary values

  ghost predicate StoredWithin(p: Problem, sd: Stored, lo: real, hi: real) {
    ShapedLike(p, sd) && forall k :: 0 <= k < |sd| ==> Within(sd[k], lo, hi)
  }

  ghost predicate Reflects(p: Problem, mirror: (nat, nat) -> bool, now: nat) {
    LastMirror(mirror, now, |p.slices|) < |p.slices|
  }

  /** Reservoirs lie in the range; periodic boundaries keep a uniform field only, unless they refer
      to their own cell or to none; walls find the mirrored slice, diffusive boundaries as well
      unless they do not reflect specularly. */
  ghost predicate Harmless(p: Problem, b: Boundary, now: nat, lo: real, hi: real) {
    match b
    case Reservoir(v) => lo <= v <= hi
    case Periodic(cell, partner) => lo == hi || partner == NotFound || partner == Found(cell)
    case Wall(_, mirror) => Reflects(p, mirror, now)
    case Diffusive(_, _, q, mirror) => 0.0 <= q <= 1.0 && (q > 0.0 ==> Reflects(p, mirror, now))
  }

  lemma SpecularInRange(p: Problem, mirror: (nat, nat) -> bool, now: nat, sd: Stored, cell: nat, lo: real, hi: real)
    requires StoredWithin(p, sd, lo, hi) && cell < |p.grid.cells| && Reflects(p, mirror, now)
    ensures lo <= Specular(mirror, now, sd, cell) <= hi
  {}

  /** The energy a wall returns lies in the range whatever is stored, exactly if it finds the
      mirrored slice; otherwise it returns nothing. */
  lemma WallKeepsRange(p: Problem, mirror: (nat, nat) -> bool, now: nat, cell: nat, lo: real, hi: real)
    requires 0.0 < lo <= hi && cell < |p.grid.cells|
    ensures (forall sd: Stored :: StoredWithin(p, sd, lo, hi) ==> lo <= Specular(mirror, now, sd, cell) <= hi)
       <==> Reflects(p, mirror, now)
  {
    if Reflects(p, mirror, now) {
      forall sd: Stored | StoredWithin(p, sd, lo, hi) ensures lo <= Specular(mirror, now, sd, cell) <= hi {
        SpecularInRange(p, mirror, now, sd, cell, lo, hi);
      }
    } else {
      var sd: Stored := seq(|p.slices|, _ => seq(|p.grid.cells|, _ => lo));
      assert StoredWithin(p, sd, lo, hi);
      assert Specular(mirror, now, sd, cell) == 0.0;
    }
  }

  lemma DiffuseInRange(p: Problem, normal: Vec, sd: Stored, cell: nat, lo: real, hi: real)
    requires StoredWithin(p, sd, lo, hi) && cell < |p.grid.cells| && OutAngle(p.slices, normal, |p.slices|) > 0.0
    requires forall k :: 0 <= k < |p.slices| ==> p.slices[k].dOmega > 0.0
    ensures lo <= Sum(OutEnergy(p.slices, normal, sd, cell), |p.slices|) / OutAngle(p.slices, normal, |p.slices|) <= hi
  {
    var f, w, x, n := OutEnergy(p.slices, normal, sd, cell), OutWeight(p.slices, normal), StoredAt(sd, cell),
      |p.slices|;
    forall k: nat | k < n ensures w(k) >= 0.0 && f(k) == Product(w(k), x(k)) && (w(k) > 0.0 ==> lo <= x(k) <= hi) {
      OneSlice(p, normal, sd, cell, lo, hi, k);
    }
    hide OutEnergy, OutWeight, StoredAt, Product, Sum, StoredWithin;
    AverageBounds(f, w, x, n, lo, hi);
    QuotientBounds(Sum(f, n), Sum(w, n), lo, hi);
  }

  lemma OneSlice(p: Problem, normal: Vec, sd: Stored, cell: nat, lo: real, hi: real, k: nat)
    requires StoredWithin(p, sd, lo, hi) && cell < |p.grid.cells| && k < |p.slices| && p.slices[k].dOmega > 0.0
    ensures var w, x := OutWeight(p.slices, normal)(k), StoredAt(sd, cell)(k);
            w >= 0.0 && OutEnergy(p.slices, normal, sd, cell)(k) == Product(w, x) && lo <= x <= hi
  {}

  lemma MixInRange(q: real, a: real, b: real, lo: real, hi: real)
    requires 0.0 <= q <= 1.0 && lo <= b <= hi && (q > 0.0 ==> lo <= a <= hi)
    ensures lo <= q * a + (1.0 - q) * b <= hi
  {
    if q == 0.0 {
      assert q * a == 0.0 && (1.0 - q) * b == b;
    } else {
      NonNegative(q, a - lo);
      NonNegative(q, hi - a);
      NonNegative(1.0 - q, b - lo);
      NonNegative(1.0 - q, hi - b);
      assert q * (a - lo) + (1.0 - q) * (b - lo) == q * a + (1.0 - q) * b - lo;
      assert q * (hi - a) + (1.0 - q) * (hi - b) == hi - (q * a + (1.0 - q) * b);
    }
  }

  lemma BoundaryInRange(p: Problem, b: Boundary, now: nat, sd: Stored, e: seq<real>, lo: real, hi: real)
    requires ValidProblem(p) && ValidBoundary(p, b) && StoredWithin(p, sd, lo, hi) && Harmless(p, b, now, lo, hi)
    requires now < |p.slices| && |e| == |p.grid.cells| && Within(e, lo, hi)
    ensures lo <= BoundaryValueOf(p, b, now, sd, e) <= hi
  {
    hide Specular, OutEnergy, OutAngle, Sum, Reflects;
    match b
    case Reservoir(v) =>
    case Periodic(cell, partner) => if partner.Found? { assert Within(sd[now], lo, hi); }
    case Wall(cell, mirror) => SpecularInRange(p, mirror, now, sd, cell, lo, hi);
    case Diffusive(cell, normal, q, mirror) =>
      if q > 0.0 { SpecularInRange(p, mirror, now, sd, cell, lo, hi); }
      DiffuseInRange(p, normal, sd, cell, lo, hi);
      var mean := Sum(OutEnergy(p.slices, normal, sd, cell), |p.slices|) / OutAngle(p.slices, normal, |p.slices|);
      MixInRange(q, Specular(mirror, now, sd, cell), mean, lo, hi);
  }

  // ---------------------------------------------------------------------------------------
  // Sweeps

  /** The linear solver solves the systems it is given. */
  ghost predicate SolvesSystems(p: Problem)
    requires ValidProblem(p)
  {
    forall k: nat, e: seq<real>, sd: Stored :: k < |p.slices| && |e| == |p.grid.cells| && ShapedLike(p, sd) ==>
      Solves(p.grid, RowsFor(p, e, sd, k), p.solve(RowsFor(p, e, sd, k)))
  }

  /** No heat source, closed cells, consistent directions, and inflow boundaries that keep the range. */
  ghost predicate Contained(p: Problem, lo: real, hi: real)
    requires ValidProblem(p)
  {
    && SolvesSystems(p)
    && (forall c :: 0 <= c < |p.grid.cells| ==> p.grid.cells[c].heat == 0.0)
    && (forall k :: 0 <= k < |p.slices| ==> Regular(p.grid, p.slices[k]))
    && forall k: nat, c: nat, s: nat :: k < |p.slices| && InflowAt(p, k, c, s) ==>
         Harmless(p, p.boundaries[p.grid.cells[c].sides[s].boundary], k, lo, hi)
  }

  ghost predicate InflowAt(p: Problem, k: nat, c: nat, s: nat)
    requires ValidProblem(p) && k < |p.slices|
    ensures InflowAt(p, k, c, s) ==>
              c < |p.grid.cells| && s < |p.grid.cells[c].sides| && p.grid.cells[c].sides[s].Open?
              && p.grid.cells[c].sides[s].boundary < |p.boundaries|
  {
    c < |p.grid.cells| && s < |p.grid.cells[c].sides| && p.grid.cells[c].sides[s].Open?
    && Inflow(p.slices[k], p.grid.cells[c].sides[s])
  }

  lemma GivenInRange(p: Problem, e: seq<real>, sd: Stored, k: nat, c: nat, lo: real, hi: real)
    requires ValidProblem(p) && Contained(p, lo, hi) && |e| == |p.grid.cells| && StoredWithin(p, sd, lo, hi)
    requires k < |p.slices| && c < |e| && Within(e, lo, hi) && RowsFor(p, e, sd, k)[c].Given?
    ensures lo <= RowsFor(p, e, sd, k)[c].value <= hi
  {
    var cell, d := p.grid.cells[c], p.slices[k];
    var last := LastOpen(d, cell.sides, |cell.sides|);
    assert InflowAt(p, k, c, last);
    var b := p.boundaries[cell.sides[last].boundary];
    assert ValidBoundary(p, b) && Harmless(p, b, k, lo, hi);
    assert RowsFor(p, e, sd, k)[c].value == BoundaryValueOf(p, b, k, sd, e);
    hide ValidProblem, Contained, RowsFor, Harmless;
    BoundaryInRange(p, b, k, sd, e, lo, hi);
  }

  lemma NoSupply(c: GCell, e0: real)
    requires c.capacity > 0.0 && c.heat == 0.0
    ensures c.Supply(e0) == e0
  {}

  lemma DirectionInRange(p: Problem, e: seq<real>, sd: Stored, k: nat, lo: real, hi: real)
    requires ValidProblem(p) && Contained(p, lo, hi) && |e| == |p.grid.cells| && Within(e, lo, hi)
    requires StoredWithin(p, sd, lo, hi) && k < |p.slices|
    ensures Within(p.solve(RowsFor(p, e, sd, k)), lo, hi)
  {
    var rows := RowsFor(p, e, sd, k);
    assert Solves(p.grid, rows, p.solve(rows));
    forall c | 0 <= c < |rows| && rows[c].Given? ensures lo <= rows[c].value <= hi {
      GivenInRange(p, e, sd, k, c, lo, hi);
    }
    assert Regular(p.grid, p.slices[k]);
    forall c | 0 <= c < |e| ensures Supplies(p, e)[c] == e[c] {
      NoSupply(p.grid.cells[c], e[c]);
    }
    hide ValidProblem, Contained, RowsFor, Regular, Solves, StoredWithin;
    SolutionInRange(p.grid, p.slices[k], Supplies(p, e), BoundaryData(p, k, sd, e), rows, p.solve(rows), lo, hi);
  }

  /** All directional solutions of a sweep stay in the range. */
  lemma {:induction false} SweepInRange(p: Problem, e: seq<real>, sd: Stored, n: nat, lo: real, hi: real)
    requires ValidProblem(p) && Contained(p, lo, hi) && |e| == |p.grid.cells| && Within(e, lo, hi)
    requires StoredWithin(p, sd, lo, hi) && n <= |p.slices|
    ensures StoredWithin(p, Swept(p, e, sd, n), lo, hi)
  {
    hide ValidProblem, Contained, RowsFor, Within;
    if n > 0 {
      SweepInRange(p, e, sd, n - 1, lo, hi);
      DirectionInRange(p, e, Swept(p, e, sd, n - 1), n - 1, lo, hi);
    }
  }

  function AngleShare(p: Problem): nat -> real
    requires p.total > 0.0
  {
    (k: nat) => if k < |p.slices| then p.slices[k].dOmega / p.total else 0.0
  }

  function AngleOf(p: Problem): nat -> real {
    (k: nat) => if k < |p.slices| then p.slices[k].dOmega else 0.0
  }

  /** The slices cover the full solid angle. */
  ghost predicate Covering(p: Problem) {
    Sum(AngleOf(p), |p.slices|) == p.total
  }

  lemma {:induction false} SharesSum(p: Problem, n: nat)
    requires p.total > 0.0 && n <= |p.slices|
    ensures Sum(AngleShare(p), n) == Sum(AngleOf(p), n) / p.total
  {
    if n > 0 { SharesSum(p, n - 1); }
  }

  /** The new energy is a convex combination of the directional solutions. */
  lemma EnergyInRange(p: Problem, sd: Stored, lo: real, hi: real)
    requires ValidProblem(p) && Covering(p) && StoredWithin(p, sd, lo, hi)
    ensures Within(Energy(p, sd, |p.slices|), lo, hi)
  {
    var n := |p.slices|;
    SharesSum(p, n);
    WholeShare(p.total);
    forall c: nat | c < |p.grid.cells| ensures lo <= Sum(EnergyShare(p, sd, c), n) <= hi {
      var w, x := AngleShare(p), StoredAt(sd, c);
      forall k: nat | k < n ensures w(k) >= 0.0 && EnergyShare(p, sd, c)(k) == Product(w(k), x(k)) && lo <= x(k) <= hi {
        assert Within(sd[k], lo, hi);
        assert p.slices[k].dOmega > 0.0;
        ShareSign(p.slices[k].dOmega, p.total);
      }
      hide Sum, Product;
      AverageBounds(EnergyShare(p, sd, c), w, x, n, lo, hi);
    }
  }

  lemma WholeShare(a: real)
    requires a > 0.0
    ensures a / a == 1.0
  {}

  lemma ShareSign(a: real, b: real)
    requires a > 0.0 && b > 0.0
    ensures a / b >= 0.0
  {}

  ghost predicate StateWithin(p: Problem, s: State, lo: real, hi: real) {
    ValidState(p, s) && Within(s.e, lo, hi) && StoredWithin(p, s.sd, lo, hi)
  }

  /** Range invariant: every iterate of the solver, energy and stored boundary energies alike,
      stays in the range of the initial field and the reservoirs. */
  lemma {:induction false} IteratesInRange(p: Problem, s: State, n: nat, lo: real, hi: real)
    requires ValidProblem(p) && Contained(p, lo, hi) && Covering(p) && StateWithin(p, s, lo, hi)
    ensures StateWithin(p, Iterate(p, s, n), lo, hi)
  {
    hide ValidProblem, Contained, Covering, Energy, Swept;
    if n > 0 {
      IteratesInRange(p, s, n - 1, lo, hi);
      var before := Iterate(p, s, n - 1);
      SweepInRange(p, before.e, before.sd, |p.slices|, lo, hi);
      EnergyInRange(p, Swept(p, before.e, before.sd, |p.slices|), lo, hi);
    }
  }

  // ---------------------------------------------------------------------------------------
  // Uniform fields

  function WeightOf(p: Problem, a: Axis): nat -> real {
    (k: nat) => if k < |p.slices| then Component(p.slices[k].integrated, a) else 0.0
  }

  /** The integrated directions cancel along an axis. */
  ghost predicate Balanced(p: Problem, a: Axis) {
    Sum(WeightOf(p, a), |p.slices|) == 0.0
  }

  lemma UniformFlux(p: Problem, sd: Stored, a: Axis, c: real)
    requires ValidProblem(p) && Balanced(p, a) && StoredWithin(p, sd, c, c)
    ensures forall i :: 0 <= i < |p.grid.cells| ==> Flux(p, sd, a, |p.slices|)[i] == 0.0
  {
    hide ValidProblem, Sum;
    var n := |p.slices|;
    forall i: nat | i < |p.grid.cells| ensures Sum(FluxShare(p, sd, i, a), n) == 0.0 {
      forall k: nat | k < n ensures FluxShare(p, sd, i, a)(k) == (p.factor * c) * WeightOf(p, a)(k) {
        assert Within(sd[k], c, c);
        UniformShare(p.factor, Component(p.slices[k].integrated, a), c);
      }
      hide FluxShare, WeightOf;
      SumScale(WeightOf(p, a), p.factor * c, FluxShare(p, sd, i, a), n);
    }
  }

  lemma UniformShare(factor: real, d: real, c: real)
    ensures Product(factor * d, c) == (factor * c) * d
  {}

  /** A uniform field with reservoirs at the same energy is a fixed point of the iteration, and
      carries no heat along any axis the directions balance. */
  lemma UniformIsStationary(p: Problem, s: State, n: nat, c: real, a: Axis)
    requires ValidProblem(p) && Contained(p, c, c) && Covering(p) && StateWithin(p, s, c, c)
    ensures Iterate(p, s, n).e == s.e
    ensures Balanced(p, a) ==> forall i :: 0 <= i < |p.grid.cells| ==>
      Flux(p, Iterate(p, s, n).sd, a, |p.slices|)[i] == 0.0
  {
    IteratesInRange(p, s, n, c, c);
    hide ValidProblem, Contained, Covering, Flux, Balanced, Iterate;
    if Balanced(p, a) { UniformFlux(p, Iterate(p, s, n).sd, a, c); }
  }

  // ---------------------------------------------------------------------------------------
  // What a diffusive boundary mixes

  /** A boundary without specular part returns what all slices that leave through it carry, whatever the others
      do; one with full specular part the mirrored slice alone. */
  lemma DiffusiveParts(p: Problem, b: Boundary, now: nat, sd: Stored, e: seq<real>, c: real)
    requires ValidProblem(p) && ValidBoundary(p, b) && b.Diffusive? && ShapedLike(p, sd) && |e| == |p.grid.cells|
    requires forall k: nat :: k < |p.slices| && Inner(p.slices[k].dir, b.normal) > 0.0 ==> sd[k][b.cell] == c
    ensures b.specularity == 0.0 ==> BoundaryValueOf(p, b, now, sd, e) == c
    ensures b.specularity == 1.0 ==> BoundaryValueOf(p, b, now, sd, e) == Specular(b.mirror, now, sd, b.cell)
  {
    var n, f, w := |p.slices|, OutEnergy(p.slices, b.normal, sd, b.cell), OutWeight(p.slices, b.normal);
    forall k: nat | k < n ensures f(k) == c * w(k) { NoPartOf(c); }
    hide ValidProblem, Specular, OutEnergy, OutWeight, Sum, Inner;
    SumScale(w, c, f, n);
    QuotientOf(c, Sum(w, n), Sum(f, n));
    MixOf(b.specularity, Specular(b.mirror, now, sd, b.cell), Sum(f, n) / Sum(w, n));
  }

  lemma NoPartOf(c: real)
    ensures c * 0.0 == 0.0
  {}

  lemma QuotientOf(c: real, w: real, f: real)
    requires w > 0.0 && f == c * w
    ensures f / w == c
  {}

  lemma MixOf(q: real, a: real, b: real)
    ensures q == 0.0 ==> q * a + (1.0 - q) * b == b
    ensures q == 1.0 ==> q * a + (1.0 - q) * b == a
  {}
}
