/** What the boundary coefficients satisfy after a computation: gauge-neutral rows, exact
    derivatives, and the fate of imposed rows. */
module BoundaryLaws {
  import opened Calculus
  import opened Forms
  import opened InterfaceModel

  function EntryAt(row: seq<real>): nat -> real {
    (j: nat) => if j < |row| then row[j] else 0.0
  }

  function RowSum(row: seq<real>): real {
    Sum(EntryAt(row), |row|)
  }

  /** What surface recombination contributes to a row sum. */
  function ModelRowSum(s: Setup, p: Point, i: nat): real
    requires ValidPoint(s.n, p) && i < s.n
  {
    if s.models then RowSum(p.rateSlopes[i]) / Divisor(s) else 0.0
  }

  lemma {:induction false} SumOfQuotients(f: nat -> real, d: real, g: nat -> real, n: nat)
    requires d > 0.0 && forall j: nat :: j < n ==> g(j) == f(j) / d
    ensures Sum(g, n) == Sum(f, n) / d
  {
    if n > 0 { SumOfQuotients(f, d, g, n - 1); }
  }

  /** Two opposite entries at different places. */
  function Opposite(i: nat, n: nat, c: real): nat -> real {
    (j: nat) => if j == n then c else if j == i then -c else 0.0
  }

  lemma OppositeSum(i: nat, n: nat, c: real)
    requires i < n
    ensures Sum(Opposite(i, n, c), n + 1) == 0.0
  {
    var f := Opposite(i, n, c);
    SumSingle(f, i, n);
  }

  function OwnRow(s: Setup, k: Kind, p: Point, was: Coefficients, i: nat): nat -> real
    requires ValidPoint(s.n, p) && ValidKind(s.n, k) && Prepared(s.n, was) && i < s.n
  {
    (j: nat) => if j <= s.n then OwnEntry(s, k, p, was, i, j) else 0.0
  }

  function ModelRow(s: Setup, p: Point, i: nat): nat -> real
    requires ValidPoint(s.n, p) && i < s.n
  {
    (j: nat) => if s.models && j <= s.n then p.rateSlopes[i][j] / Divisor(s) else 0.0
  }

  lemma ModelRowSums(s: Setup, p: Point, i: nat)
    requires ValidPoint(s.n, p) && i < s.n
    ensures Sum(ModelRow(s, p, i), s.n + 1) == ModelRowSum(s, p, i)
  {
    if s.models {
      SumOfQuotients(EntryAt(p.rateSlopes[i]), Divisor(s), ModelRow(s, p, i), s.n + 1);
    } else {
      SumZero(ModelRow(s, p, i), s.n + 1);
    }
  }

  lemma OwnRowSum(s: Setup, k: Kind, p: Point, was: Coefficients, i: nat)
    requires ValidPoint(s.n, p) && ValidKind(s.n, k) && Prepared(s.n, was) && i < s.n
    requires NewType(s, was, i) == NEUMANN
    ensures Sum(OwnRow(s, k, p, was, i), s.n + 1) == 0.0
  {
    var f := OwnRow(s, k, p, was, i);
    if i !in s.zeroFlux && Exchanged(k, i) {
      var c := RecombinationSlope(k, p, i);
      forall j: nat | j < s.n + 1 ensures f(j) == Opposite(i, s.n, c)(j) {}
      SumEqual(f, Opposite(i, s.n, c), s.n + 1);
      OppositeSum(i, s.n, c);
    } else {
      SumZero(f, s.n + 1);
    }
  }

  /** A row that is not imposed is neutral exactly as far as surface recombination is. */
  lemma NeumannRowSum(s: Setup, k: Kind, p: Point, was: Coefficients, now: Coefficients, i: nat)
    requires ValidPoint(s.n, p) && ValidKind(s.n, k) && Prepared(s.n, was) && i < s.n
    requires Computed(s, k, p, was, now) && now.b[i] == NEUMANN
    ensures RowSum(now.jac[i]) == ModelRowSum(s, p, i)
  {
    assert now.b[i] == NewType(s, was, i);
    OwnRowSum(s, k, p, was, i);
    ModelRowSums(s, p, i);
    hide OwnEntry, ModelRowSum, Divisor;
    forall j: nat | j < s.n + 1
      ensures EntryAt(now.jac[i])(j) == OwnRow(s, k, p, was, i)(j) + ModelRow(s, p, i)(j)
    {
      assert now.jac[i][j] == NewEntry(s, k, p, was, i, j);
    }
    SumPlus(OwnRow(s, k, p, was, i), ModelRow(s, p, i), EntryAt(now.jac[i]), s.n + 1);
  }

  /** Surface charge leaves the potential's row neutral. */
  lemma PotentialRowSum(s: Setup, k: Kind, p: Point, was: Coefficients, now: Coefficients)
    requires ValidPoint(s.n, p) && ValidKind(s.n, k) && Prepared(s.n, was)
    requires Computed(s, k, p, was, now) && now.b[s.n] == NEUMANN
    ensures RowSum(now.jac[s.n]) == 0.0
  {
    var f, t := EntryAt(now.jac[s.n]), TrapSlope(s, p);
    forall j: nat | j <= s.n ensures now.jac[s.n][j] == if j == s.n then Sum(t, s.n) else -t(j) {
      assert now.jac[s.n][j] == NewEntry(s, k, p, was, s.n, j);
    }
    hide TrapSlope, Computed;
    var negative := Negative(t);
    SumEqual(f, negative, s.n);
    SumScale(t, -1.0, negative, s.n);
  }

  function Negative(f: nat -> real): nat -> real {
    (j: nat) => -f(j)
  }

  // ---------------------------------------------------------------------------------------
  // Imposed rows

  ghost predicate NoSlopes(s: Setup, p: Point, i: nat)
    requires ValidPoint(s.n, p) && i < s.n
  {
    forall j: nat :: j <= s.n ==> p.rateSlopes[i][j] == 0.0
  }

  lemma QuotientZero(a: real, d: real)
    requires d > 0.0
    ensures a / d == 0.0 <==> a == 0.0
  {}

  /** An imposed carrier keeps its row exactly when no surface recombination is added to it. */
  lemma ImposedRowKept(s: Setup, k: Kind, p: Point, was: Coefficients, now: Coefficients, i: nat)
    requires ValidPoint(s.n, p) && ValidKind(s.n, k) && Prepared(s.n, was) && i < s.n && i !in s.zeroFlux
    requires Computed(s, k, p, was, now) && Imposing(s.n, was, i)
    ensures Imposing(s.n, now, i) <==> !s.models || NoSlopes(s, p, i)
    ensures now.g[i] == (if Exchanged(k, i) then k.voltage else was.g[i])
      + (if s.models then p.rates[i] / Divisor(s) else 0.0)
  {
    assert now.b[i] == NewType(s, was, i) && now.a[i] == NewA(s, was, i) && now.g[i] == NewValue(s, k, p, was, i);
    forall j: nat | j <= s.n
      ensures now.jac[i][j] == was.jac[i][j] + (if s.models then p.rateSlopes[i][j] / Divisor(s) else 0.0)
    {
      assert now.jac[i][j] == NewEntry(s, k, p, was, i, j);
    }
    forall j: nat | j <= s.n ensures p.rateSlopes[i][j] / Divisor(s) == 0.0 <==> p.rateSlopes[i][j] == 0.0 {
      QuotientZero(p.rateSlopes[i][j], Divisor(s));
    }
    hide Computed, Divisor;
    if s.models && !NoSlopes(s, p, i) {
      var j: nat :| j <= s.n && p.rateSlopes[i][j] != 0.0;
      assert now.jac[i][j] != was.jac[i][j];
    }
  }

  /** Whatever the point data, an imposed carrier keeps its row: true exactly without models. */
  lemma ImposedRowAlwaysKept(s: Setup, k: Kind, was: Coefficients, i: nat)
    requires ValidKind(s.n, k) && Prepared(s.n, was) && i < s.n && i !in s.zeroFlux && Imposing(s.n, was, i)
    ensures (forall p: Point, now: Coefficients :: ValidPoint(s.n, p) && Computed(s, k, p, was, now) ==>
      Imposing(s.n, now, i))
       <==> !s.models
  {
    forall p: Point, now: Coefficients | ValidPoint(s.n, p) && Computed(s, k, p, was, now)
      ensures Imposing(s.n, now, i) <==> !s.models || NoSlopes(s, p, i)
    {
      ImposedRowKept(s, k, p, was, now, i);
    }
    if s.models {
      var zeros, ones := seq(s.n, _ => 0.0), seq(s.n, _ => seq(s.n + 1, _ => 1.0));
      var p := Point(zeros, zeros, 0.0, 0.0, zeros, zeros, ones);
      assert ValidPoint(s.n, p) && p.rateSlopes[i][0] == 1.0;
      assert !NoSlopes(s, p, i);
      var now := ComputedState(s, k, p, was);
      assert !Imposing(s.n, now, i);
    }
  }

  /** A Schottky contact at half a volt without thermionic emission, with one surface recombination
      model attached: electrons and potential are imposed. */
  const LOSING := Contact(0.5, 0.0, [0.0], [0.0], {0})
  const SURFACE := Point([0.0], [0.0], 0.0, 0.0, [0.0], [2.0], [[1.0, -1.0]])

  /** One computation breaks both the imposed voltage and the derivative. */
  lemma ImposedRowLost(now: Coefficients)
    requires Computed(Setup(1, false, true, {}), LOSING, SURFACE, SchottkyState(1, true), now)
    ensures Imposing(1, SchottkyState(1, true), 0)
    ensures Prepared(1, now) && !Imposing(1, now, 0) && now.g[0] == 2.5 && now.jac[0] == [0.0, -1.0]
  {
    ImposedRowKept(Setup(1, false, true, {}), LOSING, SURFACE, SchottkyState(1, true), now, 0);
    assert SURFACE.rateSlopes[0][0] == 1.0;
    assert now.jac[0][0] == 0.0 && now.jac[0][1] == -1.0;
  }

  /** The same on the object, from its construction on. */
  method LoseVoltage() returns (c: Boundary)
    ensures fresh(c) && Prepared(1, c.Contents()) && c.coeffB == [DIRICHLET, DIRICHLET]
    ensures c.coeffG[0] == 2.5 && c.jacobian[0] == [0.0, -1.0]
  {
    var setup := Setup(1, false, true, {});
    c := new Boundary(setup, Contact(0.5, 0.0, [-1.0], [0.0], {0}));
    c.InitSchottky(false, false, false, [-1.0], map[]);
    assert c.kind == LOSING;
    ghost var was := c.Contents();
    c.Compute(SURFACE);
    ImposedRowLost(c.Contents());
    assert c.coeffB == [DIRICHLET, DIRICHLET];
  }

  /** Every computation has a result. */
  lemma ComputedState(s: Setup, k: Kind, p: Point, was: Coefficients) returns (now: Coefficients)
    requires ValidPoint(s.n, p) && ValidKind(s.n, k) && Prepared(s.n, was)
    ensures Computed(s, k, p, was, now)
  {
    now := Coefficients(
      seq(s.n + 1, i requires 0 <= i <= s.n => NewA(s, was, i)),
      seq(s.n + 1, i requires 0 <= i <= s.n => NewType(s, was, i)),
      seq(s.n + 1, i requires 0 <= i <= s.n => NewValue(s, k, p, was, i)),
      seq(s.n + 1, i requires 0 <= i <= s.n => seq(s.n + 1, j requires 0 <= j <= s.n => NewEntry(s, k, p, was, i, j))));
  }

  // ---------------------------------------------------------------------------------------
  // Repeated computations

  /** Successive computations at the points of the run. */
  ghost predicate Run(s: Setup, k: Kind, points: seq<Point>, states: seq<Coefficients>) {
    && |states| == |points| + 1 && ValidKind(s.n, k)
    && (forall m :: 0 <= m < |points| ==> ValidPoint(s.n, points[m]))
    && (forall m :: 0 <= m < |states| ==> Prepared(s.n, states[m]))
    && forall m :: 0 <= m < |points| ==> Computed(s, k, points[m], states[m], states[m + 1])
  }

  function SlopesOf(s: Setup, points: seq<Point>, i: nat, j: nat): nat -> real
    requires (forall m :: 0 <= m < |points| ==> ValidPoint(s.n, points[m])) && i < s.n && j <= s.n
  {
    (m: nat) => if m < |points| && s.models then
        assert ValidPoint(s.n, points[m]);
        points[m].rateSlopes[i][j] / Divisor(s)
      else 0.0
  }

  /** The row of an imposed carrier is never reset: it collects the slopes of all computations. */
  lemma {:induction false} ImposedRowDrifts(s: Setup, k: Kind, points: seq<Point>, states: seq<Coefficients>, i: nat,
                                            j: nat, m: nat)
    requires Run(s, k, points, states) && i < s.n && j <= s.n && i !in s.zeroFlux && m <= |points|
    requires states[0].b[i] == DIRICHLET
    ensures states[m].b[i] == DIRICHLET
    ensures states[m].jac[i][j] == states[0].jac[i][j] + Sum(SlopesOf(s, points, i, j), m)
  {
    hide Divisor;
    if m > 0 {
      ImposedRowDrifts(s, k, points, states, i, j, m - 1);
      assert Computed(s, k, points[m - 1], states[m - 1], states[m]);
      assert states[m].jac[i][j] == NewEntry(s, k, points[m - 1], states[m - 1], i, j);
      assert states[m].b[i] == NewType(s, states[m - 1], i);
    }
  }

  /** Rows that are not imposed forget: the result depends on the last point only. */
  lemma NeumannRowForgets(s: Setup, k: Kind, p: Point, a: Coefficients, b: Coefficients, na: Coefficients,
                          nb: Coefficients, i: nat)
    requires ValidPoint(s.n, p) && ValidKind(s.n, k) && Prepared(s.n, a) && Prepared(s.n, b) && i <= s.n
    requires Computed(s, k, p, a, na) && Computed(s, k, p, b, nb)
    requires NewType(s, a, i) == NEUMANN && NewType(s, b, i) == NEUMANN
    ensures na.g[i] == nb.g[i] && na.jac[i] == nb.jac[i]
  {}

  // ---------------------------------------------------------------------------------------
  // Rows that are not imposed are exact derivatives

  /** Change of the boundary value predicted by row i when the potentials move with v. */
  function RowMove(row: seq<real>, v: seq<real>): nat -> real {
    (j: nat) => if j < |row| && j < |v| then row[j] * v[j] else 0.0
  }

  /** g - a*phi of a carrier along a motion: density and rate move, everything else is fixed. */
  function ValueAt(s: Setup, k: Kind, i: nat, density: real, rate: real): real
    requires ValidKind(s.n, k) && i < s.n
  {
    (if i !in s.zeroFlux && Exchanged(k, i) then k.vrec[i] * (density - k.dens0[i]) else 0.0)
    + (if s.models then rate / Divisor(s) else 0.0)
  }

  function ValueAlong(s: Setup, k: Kind, i: nat, density: Curve, rate: Curve): (f: Curve)
    requires ValidKind(s.n, k) && i < s.n
    ensures forall h: Arg {:trigger f(h)} :: f(h) == ValueAt(s, k, i, density(h), rate(h))
  {
    (h: Arg) => ValueAt(s, k, i, density(h), rate(h))
  }

  function OwnMove(s: Setup, k: Kind, p: Point, was: Coefficients, i: nat, v: seq<real>): nat -> real
    requires ValidPoint(s.n, p) && ValidKind(s.n, k) && Prepared(s.n, was) && i < s.n && |v| == s.n + 1
  {
    (j: nat) => if j <= s.n then OwnEntry(s, k, p, was, i, j) * v[j] else 0.0
  }

  function ModelMove(s: Setup, p: Point, i: nat, v: seq<real>): nat -> real
    requires ValidPoint(s.n, p) && i < s.n && |v| == s.n + 1
  {
    (j: nat) => if s.models && j <= s.n then p.rateSlopes[i][j] / Divisor(s) * v[j] else 0.0
  }

  function RateMove(p: Point, i: nat, v: seq<real>): nat -> real
    requires i < |p.rateSlopes|
  {
    RowMove(p.rateSlopes[i], v)
  }

  lemma OwnMoveSum(s: Setup, k: Kind, p: Point, was: Coefficients, i: nat, v: seq<real>)
    requires ValidPoint(s.n, p) && ValidKind(s.n, k) && Prepared(s.n, was) && i < s.n && |v| == s.n + 1
    requires NewType(s, was, i) == NEUMANN
    ensures Sum(OwnMove(s, k, p, was, i, v), s.n + 1)
         == if i !in s.zeroFlux && Exchanged(k, i) then k.vrec[i] * DensityMove(s, p, i, v) else 0.0
  {
    hide RecombinationSlope;
    var f := OwnMove(s, k, p, was, i, v);
    if i !in s.zeroFlux && Exchanged(k, i) {
      var c := RecombinationSlope(k, p, i);
      forall j: nat | j < s.n ensures f(j) == if j == i then -c * v[i] else 0.0 {
        if j != i { assert 0.0 * v[j] == 0.0; }
      }
      assert f(s.n) == c * v[s.n];
      SumSingle(f, i, s.n);
      SlopeIs(k, p, i);
      ExchangeMove(s, p, i, v, k.vrec[i], c, f(i), f(s.n));
      hide DensityMove, OwnMove;
    } else {
      forall j: nat | j < s.n + 1 ensures f(j) == 0.0 {
        assert 0.0 * v[j] == 0.0;
      }
      SumZero(f, s.n + 1);
    }
  }

  lemma SlopeIs(k: Kind, p: Point, i: nat)
    requires k.Contact? && |k.vrec| == |p.slope| && i < |p.slope|
    ensures RecombinationSlope(k, p, i) == k.vrec[i] * p.slope[i]
  {}

  lemma ExchangeMove(s: Setup, p: Point, i: nat, v: seq<real>, vrec: real, c: real, fi: real, fn: real)
    requires ValidPoint(s.n, p) && i < s.n && |v| == s.n + 1
    requires c == vrec * p.slope[i] && fi == -c * v[i] && fn == c * v[s.n]
    ensures fi + fn == vrec * DensityMove(s, p, i, v)
  {}

  lemma ModelMoveSum(s: Setup, p: Point, i: nat, v: seq<real>)
    requires ValidPoint(s.n, p) && i < s.n && |v| == s.n + 1
    ensures Sum(ModelMove(s, p, i, v), s.n + 1)
         == if s.models then Sum(RateMove(p, i, v), s.n + 1) / Divisor(s) else 0.0
  {
    if s.models {
      forall j: nat | j < s.n + 1 ensures ModelMove(s, p, i, v)(j) == RateMove(p, i, v)(j) / Divisor(s) {
        QuotientTimes(p.rateSlopes[i][j], Divisor(s), v[j]);
      }
      SumOfQuotients(RateMove(p, i, v), Divisor(s), ModelMove(s, p, i, v), s.n + 1);
    } else {
      SumZero(ModelMove(s, p, i, v), s.n + 1);
    }
  }

  lemma QuotientTimes(a: real, d: real, b: real)
    requires d > 0.0
    ensures a / d * b == a * b / d
  {}

  /** Density change of carrier i: it follows the Fermi level, that is the difference between the
      electric and its own quasi-Fermi potential. */
  function DensityMove(s: Setup, p: Point, i: nat, v: seq<real>): real
    requires ValidPoint(s.n, p) && i < s.n && |v| == s.n + 1
  {
    p.slope[i] * (v[s.n] - v[i])
  }

  /** Slopes of density and rate as the models promise them. */
  ghost predicate PointModels(s: Setup, p: Point, i: nat, v: seq<real>, density: Curve, rate: Curve)
    requires ValidPoint(s.n, p) && i < s.n && |v| == s.n + 1
  {
    && density(0.0) == p.density[i] && rate(0.0) == p.rates[i]
    && HasDeriv(density, DensityMove(s, p, i, v)) && HasDeriv(rate, Sum(RateMove(p, i, v), s.n + 1))
  }

  lemma CombinationDerivative(density: Curve, d1: real, rate: Curve, d2: real, c: real, dens0: real, w: real,
                              f: Curve, d: real)
    requires HasDeriv(density, d1) && HasDeriv(rate, d2) && d == c * d1 + w * d2
    requires forall h: Arg {:trigger f(h)} :: f(h) == c * (density(h) - dens0) + w * rate(h)
    ensures HasDeriv(f, d)
  {
    hide HasDeriv;
    var floor := Constant(dens0);
    var excess := Minus(density, floor);
    DerivConst(floor, dens0);
    DerivDiff(density, d1, floor, 0.0, excess, d1);
    var own, dOwn := Scaled(c, excess), c * d1;
    DerivScale(excess, d1, c, own, dOwn);
    var model, dModel := Scaled(w, rate), w * d2;
    DerivScale(rate, d2, w, model, dModel);
    var total := Plus(own, model);
    DerivSum(own, dOwn, model, dModel, total, d);
    forall h: Arg ensures f(h) == total(h) {
      assert excess(h) == density(h) - dens0;
      assert own(h) == c * excess(h);
    }
    DerivSame(total, f, d);
  }

  lemma ValueDerivative(s: Setup, k: Kind, i: nat, density: Curve, d1: real, rate: Curve, d2: real, d: real)
    requires ValidKind(s.n, k) && i < s.n && HasDeriv(density, d1) && HasDeriv(rate, d2)
    requires d == (if i !in s.zeroFlux && Exchanged(k, i) then k.vrec[i] * d1 else 0.0)
                + (if s.models then d2 / Divisor(s) else 0.0)
    ensures HasDeriv(ValueAlong(s, k, i, density, rate), d)
  {
    hide HasDeriv, Divisor, ValueAt;
    var c, dens0 := 0.0, 0.0;
    if i !in s.zeroFlux && Exchanged(k, i) {
      c, dens0 := k.vrec[i], k.dens0[i];
    }
    var w := if s.models then 1.0 / Divisor(s) else 0.0;
    InverseTimes(d2, Divisor(s));
    var f := ValueAlong(s, k, i, density, rate);
    forall h: Arg ensures f(h) == c * (density(h) - dens0) + w * rate(h) {
      ValueSplits(s, k, i, density(h), rate(h), c, dens0, w);
    }
    hide ValueAlong, Exchanged;
    CombinationDerivative(density, d1, rate, d2, c, dens0, w, f, d);
  }

  lemma ValueSplits(s: Setup, k: Kind, i: nat, density: real, rate: real, c: real, dens0: real, w: real)
    requires ValidKind(s.n, k) && i < s.n
    requires if i !in s.zeroFlux && Exchanged(k, i) then c == k.vrec[i] && dens0 == k.dens0[i] else c == 0.0
    requires w == if s.models then 1.0 / Divisor(s) else 0.0
    ensures ValueAt(s, k, i, density, rate) == c * (density - dens0) + w * rate
  {}

  /** The row of a carrier that is not imposed gives the value's derivative in every direction. */
  lemma CarrierRowExact(s: Setup, k: Kind, p: Point, was: Coefficients, now: Coefficients, i: nat, v: seq<real>,
                        density: Curve, rate: Curve)
    requires ValidPoint(s.n, p) && ValidKind(s.n, k) && Prepared(s.n, was) && i < s.n && |v| == s.n + 1
    requires Computed(s, k, p, was, now) && was.b[i] == NEUMANN && PointModels(s, p, i, v, density, rate)
    ensures now.g[i] == ValueAlong(s, k, i, density, rate)(0.0)
    ensures HasDeriv(ValueAlong(s, k, i, density, rate), Sum(RowMove(now.jac[i], v), s.n + 1))
  {
    hide HasDeriv, Sum, Divisor, RowMove;
    assert now.g[i] == NewValue(s, k, p, was, i);
    RowMoveSplits(s, k, p, was, now, i, v);
    OwnMoveSum(s, k, p, was, i, v);
    ModelMoveSum(s, p, i, v);
    hide Computed;
    ValueDerivative(s, k, i, density, DensityMove(s, p, i, v), rate, Sum(RateMove(p, i, v), s.n + 1),
                    Sum(RowMove(now.jac[i], v), s.n + 1));
  }

  lemma InverseTimes(a: real, d: real)
    requires d > 0.0
    ensures 1.0 / d * a == a / d
  {}

  lemma RowMoveSplits(s: Setup, k: Kind, p: Point, was: Coefficients, now: Coefficients, i: nat, v: seq<real>)
    requires ValidPoint(s.n, p) && ValidKind(s.n, k) && Prepared(s.n, was) && i < s.n && |v| == s.n + 1
    requires Computed(s, k, p, was, now)
    ensures Sum(RowMove(now.jac[i], v), s.n + 1)
         == Sum(OwnMove(s, k, p, was, i, v), s.n + 1) + Sum(ModelMove(s, p, i, v), s.n + 1)
  {
    hide OwnEntry, Divisor;
    forall j: nat | j < s.n + 1
      ensures RowMove(now.jac[i], v)(j) == OwnMove(s, k, p, was, i, v)(j) + ModelMove(s, p, i, v)(j)
    {
      assert now.jac[i][j] == NewEntry(s, k, p, was, i, j);
      var own, model := OwnEntry(s, k, p, was, i, j), if s.models then p.rateSlopes[i][j] / Divisor(s) else 0.0;
      assert (own + model) * v[j] == own * v[j] + model * v[j];
    }
    SumPlus(OwnMove(s, k, p, was, i, v), ModelMove(s, p, i, v), RowMove(now.jac[i], v), s.n + 1);
  }

  // ---------------------------------------------------------------------------------------
  // What is exchanged

  /** An internal boundary is visited from both sides, an outer one once: either way rates and trapped charge
      count once. */
  lemma SidesAddUp(s: Setup, k: Kind, p: Point, was: Coefficients, now: Coefficients, i: nat)
    requires ValidPoint(s.n, p) && ValidKind(s.n, k) && Prepared(s.n, was) && i <= s.n
    requires Computed(s, k, p, was, now) && was.b[i] == NEUMANN && s.models && !Exchanged(k, i)
    ensures now.g[i] + (if s.internal then now.g[i] else 0.0)
      == if i == s.n then p.electronTraps + p.holeTraps else p.rates[i]
  {
    assert now.g[i] == NewValue(s, k, p, was, i);
  }

  /** What an imposed row of a contact asks for: carriers take the voltage, the electric potential the voltage on
      top of the contact's Fermi level. */
  lemma ContactImposes(s: Setup, k: Kind, p: Point, was: Coefficients, now: Coefficients, i: nat, phi: real)
    requires ValidPoint(s.n, p) && ValidKind(s.n, k) && Prepared(s.n, was) && i <= s.n
    requires Computed(s, k, p, was, now) && Imposing(s.n, was, i) && k.Contact?
    requires i < s.n ==> Exchanged(k, i) && !s.models && i !in s.zeroFlux
    ensures now.g[i] - now.a[i] * phi == 0.0
      <==> phi == if i == s.n then k.fermiLevel + k.voltage else k.voltage
  {
    assert now.g[i] == NewValue(s, k, p, was, i) && now.a[i] == NewA(s, was, i);
  }

  /** A free carrier leaves a contact with its recombination velocity times what exceeds equilibrium. */
  lemma ContactExchanges(s: Setup, k: Kind, p: Point, was: Coefficients, now: Coefficients, i: nat)
    requires ValidPoint(s.n, p) && ValidKind(s.n, k) && Prepared(s.n, was) && i < s.n
    requires Computed(s, k, p, was, now) && was.b[i] == NEUMANN && Exchanged(k, i) && !s.models && i !in s.zeroFlux
    ensures p.density[i] == k.dens0[i] ==> now.g[i] == 0.0
    ensures k.vrec[i] > 0.0 ==> (now.g[i] > 0.0 <==> p.density[i] > k.dens0[i])
    ensures p.density[i] == k.dens0[i] + 1.0 ==> now.g[i] == k.vrec[i]
  {
    assert now.g[i] == NewValue(s, k, p, was, i);
    var e := p.density[i] - k.dens0[i];
    assert now.g[i] == k.vrec[i] * e;
    if k.vrec[i] > 0.0 && e > 0.0 { Positive(k.vrec[i], e); }
    if k.vrec[i] > 0.0 && e <= 0.0 { NonNegative(k.vrec[i], -e); }
  }

  /** An isolated carrier without surface models exchanges nothing and is not imposed, whatever the contact says. */
  lemma IsolatedIsQuiet(s: Setup, k: Kind, p: Point, was: Coefficients, now: Coefficients, i: nat)
    requires ValidPoint(s.n, p) && ValidKind(s.n, k) && Prepared(s.n, was) && i < s.n
    requires Computed(s, k, p, was, now) && i in s.zeroFlux && !s.models
    ensures now.b[i] == NEUMANN && now.a[i] == 0.0 && now.g[i] == 0.0
    ensures forall j :: 0 <= j <= s.n ==> now.jac[i][j] == 0.0
  {
    forall j | 0 <= j <= s.n ensures now.jac[i][j] == 0.0 {
      assert now.jac[i][j] == NewEntry(s, k, p, was, i, j);
    }
  }
}
