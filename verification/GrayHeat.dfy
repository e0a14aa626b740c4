/** Heat in the gray solver: what the averaged energy and the heat flux mean. */
module GrayHeat {
  import opened Calculus
  import opened Forms
  import opened BoxMesh
  import opened GraySystem
  import opened GraySolver
  import opened GrayRange
  import opened GrayBalance

  // ---------------------------------------------------------------------------------------
  // Balance over all directions

  /** Energy slice k carries out of cell c, for a solution of every slice. */
  function CarriedBy(p: Problem, x: Stored, c: nat): nat -> real
    requires ValidProblem(p) && ShapedLike(p, x) && c < |p.grid.cells|
  {
    (k: nat) => if k < |p.slices| then
        p.slices[k].dOmega * Sum(Carried(p.grid, p.slices[k], x[k], c), |p.grid.cells[c].sides|)
      else 0.0
  }

  /** Every slice solves its system for the energies e. */
  ghost predicate Solved(p: Problem, e: seq<real>, sd: Stored, x: Stored)
    requires ValidProblem(p) && |e| == |p.grid.cells| && ShapedLike(p, sd) && ShapedLike(p, x)
  {
    forall k :: 0 <= k < |p.slices| ==> Solves(p.grid, RowsFor(p, e, sd, k), x[k])
  }

  lemma SliceBalance(p: Problem, e: seq<real>, sd: Stored, x: Stored, c: nat, k: nat, h: real)
    requires ValidProblem(p) && |e| == |p.grid.cells| && ShapedLike(p, sd) && ShapedLike(p, x) && Solved(p, e, sd, x)
    requires c < |e| && k < |p.slices| && p.grid.cells[c].relaxation > 0.0 && Interior(p.grid, p.slices[k], c)
    requires p.grid.cells[c].capacity > 0.0
    requires h == p.grid.cells[c].volume * p.grid.cells[c].heat / p.grid.cells[c].capacity
    ensures var cell := p.grid.cells[c];
      Sum(Carried(p.grid, p.slices[k], x[k], c), |cell.sides|)
        == cell.volume * (e[c] - x[k][c]) / cell.relaxation + h
  {
    hide Carried, Sum;
    KineticBalance(p.grid, p.slices[k], e, Supplies(p, e), BoundaryData(p, k, sd, e), RowsFor(p, e, sd, k), x[k], c);
  }

  /** At a stationary state, where the averaged solutions are the energies again, the heat that all directions
      carry out of an inner cell is what its heat source delivers into the full solid angle. */
  lemma HeatBalance(p: Problem, e: seq<real>, sd: Stored, x: Stored, c: nat)
    requires ValidProblem(p) && Covering(p) && |e| == |p.grid.cells| && ShapedLike(p, sd) && ShapedLike(p, x)
    requires Solved(p, e, sd, x) && c < |e| && Energy(p, x, |p.slices|)[c] == e[c]
    requires p.grid.cells[c].relaxation > 0.0 && p.grid.cells[c].capacity > 0.0
    requires forall k :: 0 <= k < |p.slices| ==> Interior(p.grid, p.slices[k], c)
    ensures Sum(CarriedBy(p, x, c), |p.slices|)
      == p.total * (p.grid.cells[c].volume * p.grid.cells[c].heat / p.grid.cells[c].capacity)
  {
    hide ValidProblem, Covering, Solved, Carried, Sum, Energy, Interior, CarriedBy, AngleOf, EnergyShare;
    PositiveTotal(p);
    var cell, n := p.grid.cells[c], |p.slices|;
    var a, h := cell.volume / cell.relaxation, cell.volume * cell.heat / cell.capacity;
    var ka, kb := a * e[c] + h, -(a * p.total);
    forall k: nat | k < n ensures CarriedBy(p, x, c)(k) == ka * AngleOf(p)(k) + kb * EnergyShare(p, x, c)(k) {
      SliceShare(p, e, sd, x, c, k, a, h, ka, kb);
    }
    CoveringIs(p);
    EnergyIs(p, x, c);
    Combined(AngleOf(p), ka, EnergyShare(p, x, c), kb, CarriedBy(p, x, c), n);
    Cancelled(a, e[c], h, p.total, ka, kb, Sum(AngleOf(p), n), Sum(EnergyShare(p, x, c), n),
              Sum(CarriedBy(p, x, c), n));
  }

  lemma PositiveTotal(p: Problem)
    requires ValidProblem(p)
    ensures p.total > 0.0
  {}

  lemma EnergyIs(p: Problem, x: Stored, c: nat)
    requires p.total > 0.0 && c < |p.grid.cells|
    ensures Energy(p, x, |p.slices|)[c] == Sum(EnergyShare(p, x, c), |p.slices|)
  {}

  lemma SliceShare(p: Problem, e: seq<real>, sd: Stored, x: Stored, c: nat, k: nat, a: real, h: real, ka: real,
                   kb: real)
    requires ValidProblem(p) && |e| == |p.grid.cells| && ShapedLike(p, sd) && ShapedLike(p, x) && Solved(p, e, sd, x)
    requires c < |e| && k < |p.slices| && p.grid.cells[c].relaxation > 0.0 && Interior(p.grid, p.slices[k], c)
    requires p.grid.cells[c].capacity > 0.0
    requires var cell := p.grid.cells[c];
      a == cell.volume / cell.relaxation && h == cell.volume * cell.heat / cell.capacity
    requires ka == a * e[c] + h && kb == -(a * p.total)
    ensures CarriedBy(p, x, c)(k) == ka * AngleOf(p)(k) + kb * EnergyShare(p, x, c)(k)
  {
    assert p.slices[k].dOmega > 0.0;
    hide Solved, Carried, CarriedBy, Sum, Interior, AngleOf, EnergyShare, ValidProblem;
    SliceBalance(p, e, sd, x, c, k, h);
    PositiveTotal(p);
    var r := Sum(Carried(p.grid, p.slices[k], x[k], c), |p.grid.cells[c].sides|);
    CarriedIs(p, x, c, k, r);
    OneSlice1(p, x, c, k, e[c], a, h, CarriedBy(p, x, c)(k), ka, kb, r);
  }

  lemma CoveringIs(p: Problem)
    requires Covering(p)
    ensures Sum(AngleOf(p), |p.slices|) == p.total
  {}

  lemma {:induction false} Combined(f: nat -> real, a: real, g: nat -> real, b: real, s: nat -> real, n: nat)
    requires forall i: nat :: i < n ==> s(i) == a * f(i) + b * g(i)
    ensures Sum(s, n) == a * Sum(f, n) + b * Sum(g, n)
  {
    if n > 0 {
      Combined(f, a, g, b, s, n - 1);
      Distribute(a, Sum(f, n - 1), f(n - 1));
      Distribute(b, Sum(g, n - 1), g(n - 1));
    }
  }

  lemma Cancelled(a: real, e: real, h: real, t: real, ka: real, kb: real, w: real, s: real, f: real)
    requires ka == a * e + h && kb == -(a * t) && w == t && s == e && f == ka * w + kb * s
    ensures f == t * h
  {}

  lemma CarriedIs(p: Problem, x: Stored, c: nat, k: nat, r: real)
    requires ValidProblem(p) && ShapedLike(p, x) && c < |p.grid.cells| && k < |p.slices|
    requires r == Sum(Carried(p.grid, p.slices[k], x[k], c), |p.grid.cells[c].sides|)
    ensures CarriedBy(p, x, c)(k) == p.slices[k].dOmega * r
  {
    hide Carried, Sum;
  }

  lemma OneSlice1(p: Problem, x: Stored, c: nat, k: nat, e: real, a: real, h: real, f: real, ka: real, kb: real,
                  r: real)
    requires p.total > 0.0 && ShapedLike(p, x) && c < |p.grid.cells| && k < |p.slices|
    requires p.grid.cells[c].relaxation > 0.0 && a == p.grid.cells[c].volume / p.grid.cells[c].relaxation
    requires f == p.slices[k].dOmega * r
    requires r == p.grid.cells[c].volume * (e - x[k][c]) / p.grid.cells[c].relaxation + h
    requires ka == a * e + h && kb == -(a * p.total)
    ensures f == ka * AngleOf(p)(k) + kb * EnergyShare(p, x, c)(k)
  {
    var v, rel, o, y, t := p.grid.cells[c].volume, p.grid.cells[c].relaxation, p.slices[k].dOmega, x[k][c], p.total;
    var q := o / t;
    assert q * t == o;
    assert EnergyShare(p, x, c)(k) == q * y;
    Relaxed(v, rel, e - y, a);
    assert f == o * (a * (e - y) + h);
    Expanded(o, a, e, y, h, q, t);
  }

  lemma Relaxed(v: real, r: real, d: real, a: real)
    requires r > 0.0 && a == v / r
    ensures v * d / r == a * d
  {
    assert a * r == v;
    assert v * d == (a * d) * r;
  }

  lemma Expanded(o: real, a: real, e: real, y: real, h: real, q: real, t: real)
    requires q * t == o
    ensures o * (a * (e - y) + h) == (a * e + h) * o + -(a * t) * (q * y)
  {
    assert a * (e - y) == a * e - a * y;
    assert o * (a * e - a * y + h) == (a * e + h) * o - o * (a * y);
    assert a * t * (q * y) == q * t * (a * y);
  }

  // ---------------------------------------------------------------------------------------
  // Heat flux

  /** One more unit of energy in one direction adds that direction to the heat flux. */
  lemma FluxOfSlice(p: Problem, sd: Stored, a: Axis, k: nat, c: nat, more: real)
    requires ShapedLike(p, sd) && k < |p.slices| && c < |p.grid.cells|
    ensures var now := sd[k := sd[k][c := sd[k][c] + more]];
      Flux(p, now, a, |p.slices|)[c]
        == Flux(p, sd, a, |p.slices|)[c] + p.factor * (Component(p.slices[k].integrated, a) * more)
  {
    hide Sum, Component, FluxWeight;
    var now, n := sd[k := sd[k][c := sd[k][c] + more]], |p.slices|;
    var d := Component(p.slices[k].integrated, a);
    WeightIs(p, k, a);
    var one := Spike(k, p.factor * (d * more));
    forall j: nat | j < n ensures FluxShare(p, now, c, a)(j) == FluxShare(p, sd, c, a)(j) + one(j) {
      if j == k { MoreFlux(FluxWeight(p, k, a), p.factor, d, sd[k][c], more); }
    }
    hide FluxShare;
    SumPlus(FluxShare(p, sd, c, a), one, FluxShare(p, now, c, a), n);
    SumSingle(one, k, n);
  }

  lemma WeightIs(p: Problem, k: nat, a: Axis)
    requires k < |p.slices|
    ensures FluxWeight(p, k, a) == p.factor * Component(p.slices[k].integrated, a)
  {}

  lemma MoreFlux(w: real, f: real, d: real, x: real, more: real)
    requires w == f * d
    ensures Product(w, x + more) == Product(w, x) + f * (d * more)
  {
    assert w * (x + more) == w * x + w * more;
    assert w * more == f * (d * more);
  }

  /** Two opposite directions carry the difference of their energies. */
  lemma OppositePair(p: Problem, sd: Stored, a: Axis, c: nat)
    requires ShapedLike(p, sd) && |p.slices| == 2 && c < |p.grid.cells|
    requires Component(p.slices[1].integrated, a) == -Component(p.slices[0].integrated, a)
    ensures Flux(p, sd, a, 2)[c] == p.factor * Component(p.slices[0].integrated, a) * (sd[0][c] - sd[1][c])
  {
    hide Component;
    var f, d := FluxShare(p, sd, c, a), Component(p.slices[0].integrated, a);
    assert Sum(f, 1) == Sum(f, 0) + f(0);
    assert Sum(f, 2) == Sum(f, 1) + f(1);
    PairOf(p.factor, d, sd[0][c], sd[1][c]);
  }

  lemma PairOf(f: real, d: real, x: real, y: real)
    ensures Product(f * d, x) + Product(f * -d, y) == f * d * (x - y)
  {
    assert f * -d == -(f * d);
  }

  // ---------------------------------------------------------------------------------------
  // The order of a sweep

  /** In the course of a sweep the slices treated so far hold their new solutions, each found with the new energies
      of its predecessors; the others hold what the sweep found. */
  lemma {:induction false} SweptSoFar(p: Problem, e: seq<real>, sd: Stored, n: nat, k: nat)
    requires ValidProblem(p) && |e| == |p.grid.cells| && ShapedLike(p, sd) && n <= |p.slices| && k < |p.slices|
    ensures Swept(p, e, sd, n)[k]
      == if k < n then p.solve(RowsFor(p, e, Swept(p, e, sd, k), k)) else sd[k]
  {
    hide RowsFor;
    if n > 0 && k != n - 1 { SweptSoFar(p, e, sd, n - 1, k); }
  }
}
