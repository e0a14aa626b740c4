/** The equilibrium Fermi level: Newton's method on the charge density, kept inside a bracket. */
module EquilibriumNewton {
  import opened Calculus
  import opened Forms

  newtype Level = real

  /** Charge density as a function of the Fermi level, and its derivative by carrier (with respect
      to the carrier's own potential, hence with opposite sign). */
  datatype Charge = Charge(density: Level -> real, slopes: seq<Level -> real>)
  {
    function At(x: real): real { density(x as Level) }

    function CarrierSlope(x: real): nat -> real {
      (c: nat) => if c < |slopes| then slopes[c](x as Level) else 0.0
    }

    /** Derivative with respect to the Fermi level. */
    function Slope(x: real): real { -Sum(CarrierSlope(x), |slopes|) }
  }

  ghost predicate Falling(q: Charge) {
    && (forall x: real {:trigger q.Slope(x)} :: q.Slope(x) < 0.0)
    && forall x: real, y: real {:trigger q.At(x), q.At(y)} :: x < y ==> q.At(x) > q.At(y)
  }

  const EPSILON := 0.0001
  const DENSITY_LIMIT := 10000000000.0
  const RESIDUAL_LIMIT := 0.0000000000000000000000000000000000000000000000000000000000000001
  const MAX_ITERATIONS := 10000

  /** Current level, and a bracket: below the zero and above the zero. */
  datatype Search = Search(x: real, xmin: real, xmax: real)

  function Start(ec: real, ev: real): Search {
    Search(0.5 * (ec + ev), ev - 0.5, ec + 0.5)
  }

  /** The side of the zero the current level is on moves the bracket. */
  function Narrow(q: Charge, s: Search): Search {
    if q.At(s.x) > 0.0 then s.(xmin := s.x)
    else if q.At(s.x) < 0.0 then s.(xmax := s.x)
    else s
  }

  function NewtonStep(q: Charge, x: real): real
    requires Falling(q)
  {
    -q.At(x) / q.Slope(x)
  }

  /** Half the way to the bound a step would pass. */
  function Clamp(s: Search, dx: real): real {
    if s.x + dx > s.xmax then 0.5 * (s.xmax - s.x)
    else if s.x + dx < s.xmin then 0.5 * (s.xmin - s.x)
    else dx
  }

  function Change(q: Charge, s: Search): real
    requires Falling(q)
  {
    if Abs(q.At(s.x)) > RESIDUAL_LIMIT then Clamp(Narrow(q, s), NewtonStep(q, s.x)) else 0.0
  }

  function Step(q: Charge, s: Search): Search
    requires Falling(q)
  {
    Narrow(q, s).(x := s.x + Change(q, s))
  }

  predicate Done(q: Charge, s: Search)
    requires Falling(q)
  {
    Abs(Change(q, s)) < EPSILON && Abs(q.At(s.x)) < DENSITY_LIMIT
  }

  function Iterate(q: Charge, s: Search, n: nat): Search
    requires Falling(q)
  {
    if n == 0 then s else Step(q, Iterate(q, s, n - 1))
  }

  // ---------------------------------------------------------------------------------------
  // The loop

  method TotalSlope(q: Charge, x: real) returns (df: real)
    ensures df == q.Slope(x)
  {
    df := 0.0;
    for c := 0 to |q.slopes|
      invariant df == -Sum(q.CarrierSlope(x), c)
    {
      df := df - q.slopes[c](x as Level);
    }
  }

  /** One pass of the loop: narrow the bracket, step, report the change. */
  method Advance(q: Charge, x: real, xmin: real, xmax: real) returns (x': real, xmin': real, xmax': real, stop: bool)
    requires Falling(q)
    ensures Search(x', xmin', xmax') == Step(q, Search(x, xmin, xmax))
    ensures stop <==> Done(q, Search(x, xmin, xmax))
  {
    hide Falling;
    xmin', xmax' := xmin, xmax;
    var f := q.At(x);
    var df := TotalSlope(q, x);
    if f > 0.0 {
      xmin' := x;
    } else if f < 0.0 {
      xmax' := x;
    }
    var dx := 0.0;
    if Abs(f) > RESIDUAL_LIMIT {
      NotFlat(q, x);
      dx := -f / df;
      assert dx == NewtonStep(q, x);
      var y := x + dx;
      if y > xmax' {
        dx := 0.5 * (xmax' - x);
      } else if y < xmin' {
        dx := 0.5 * (xmin' - x);
      }
    }
    hide NewtonStep;
    assert dx == Change(q, Search(x, xmin, xmax));
    x' := x + dx;
    stop := Abs(dx) < EPSILON && Abs(f) < DENSITY_LIMIT;
  }

  lemma NotFlat(q: Charge, x: real)
    requires Falling(q)
    ensures q.Slope(x) < 0.0
  {}

  /** The level after the last step taken, and whether the search ended by itself: after the first
      step that is small with a small charge density, or when the iterations are used up. */
  method EquilibriumLevel(q: Charge, ec: real, ev: real) returns (x: real, success: bool, steps: nat)
    requires Falling(q)
    ensures 0 < steps <= MAX_ITERATIONS && x == Iterate(q, Start(ec, ev), steps).x
    ensures success <==> Done(q, Iterate(q, Start(ec, ev), steps - 1))
    ensures forall m: nat :: m + 1 < steps ==> !Done(q, Iterate(q, Start(ec, ev), m))
    ensures !success ==> steps == 10000
    ensures success ==> exists y: real :: Abs(q.At(y)) < 10000000000.0 && Abs(x - y) < 0.0001
  {
    hide Falling, Step, Done;
    x := 0.5 * (ec + ev);
    var xmin, xmax := ev - 0.5, ec + 0.5;
    success, steps := false, 0;
    ghost var s0 := Start(ec, ev);
    while steps < MAX_ITERATIONS && !success
      invariant steps <= MAX_ITERATIONS && (success ==> steps > 0)
      invariant Search(x, xmin, xmax) == Iterate(q, s0, steps)
      invariant steps > 0 ==> (success <==> Done(q, Iterate(q, s0, steps - 1)))
      invariant forall m: nat :: m + 1 < steps ==> !Done(q, Iterate(q, s0, m))
    {
      x, xmin, xmax, success := Advance(q, x, xmin, xmax);
      steps := steps + 1;
    }
    if success { DoneIsClose(q, Iterate(q, s0, steps - 1)); }
  }

  /** The search is over exactly after a step of less than 0.1 mV from a level with little charge. */
  lemma DoneIsClose(q: Charge, s: Search)
    requires Falling(q)
    ensures Done(q, s) <==> Abs(Step(q, s).x - s.x) < 0.0001 && Abs(q.At(s.x)) < 10000000000.0
  {}

  /** A level with next to no charge is kept; any other inside the bracket moves towards the zero. */
  lemma StepMoves(q: Charge, s: Search, tiny: real)
    requires Falling(q) && tiny == 0.0000000000000000000000000000000000000000000000000000000000000001
    ensures Abs(q.At(s.x)) <= tiny ==> Step(q, s).x == s.x
    ensures q.At(s.x) > tiny && s.x < s.xmax ==> Step(q, s).x > s.x
    ensures q.At(s.x) < -tiny && s.x > s.xmin ==> Step(q, s).x < s.x
  {
    StepSign(q, s.x);
    hide NewtonStep, Falling;
  }

  // ---------------------------------------------------------------------------------------
  // The bracket

  ghost predicate Bracketed(s: Search) {
    s.xmin <= s.x <= s.xmax
  }

  lemma StartBracketed(ec: real, ev: real)
    requires ec >= ev
    ensures Bracketed(Start(ec, ev))
  {}

  /** The sign of the step is the sign of the charge. */
  lemma StepSign(q: Charge, x: real)
    requires Falling(q)
    ensures q.At(x) > 0.0 ==> NewtonStep(q, x) > 0.0
    ensures q.At(x) < 0.0 ==> NewtonStep(q, x) < 0.0
  {}

  /** A step stays in the bracket, and the new bracket lies in the old one. */
  lemma StepStaysInside(q: Charge, s: Search)
    requires Falling(q) && Bracketed(s)
    ensures Bracketed(Step(q, s))
    ensures s.xmin <= Step(q, s).xmin && Step(q, s).xmax <= s.xmax
  {}

  /** Every iterate stays inside the first bracket, and later brackets inside earlier ones. */
  lemma {:induction false} IteratesStayInside(q: Charge, s: Search, m: nat, n: nat)
    requires Falling(q) && Bracketed(s) && m <= n
    ensures Bracketed(Iterate(q, s, n)) && Bracketed(Iterate(q, s, m))
    ensures Iterate(q, s, m).xmin <= Iterate(q, s, n).xmin && Iterate(q, s, n).xmax <= Iterate(q, s, m).xmax
  {
    if n == 0 {
    } else if m == n {
      IteratesStayInside(q, s, m - 1, n - 1);
      StepStaysInside(q, Iterate(q, s, n - 1));
    } else {
      IteratesStayInside(q, s, m, n - 1);
      StepStaysInside(q, Iterate(q, s, n - 1));
    }
  }

  ghost predicate Holds(s: Search, root: real) {
    s.xmin <= root <= s.xmax
  }

  /** The search starts half way between the band edges. */
  lemma StartCentered(ec: real, ev: real)
    ensures Start(ec, ev).x - ev == ec - Start(ec, ev).x
  {}

  /** The search itself: whatever the charge density, the level stays within half a volt of the gap. */
  lemma LevelStaysInside(q: Charge, ec: real, ev: real, n: nat)
    requires Falling(q) && ec >= ev
    ensures ev - 0.5 <= Iterate(q, Start(ec, ev), n).x <= ec + 0.5
  {
    StartBracketed(ec, ev);
    IteratesStayInside(q, Start(ec, ev), 0, n);
  }

  /** A zero inside the bracket stays inside. */
  lemma {:induction false} RootKept(q: Charge, s: Search, root: real, n: nat)
    requires Falling(q) && q.At(root) == 0.0 && Holds(s, root)
    ensures Holds(Iterate(q, s, n), root)
  {
    if n > 0 {
      RootKept(q, s, root, n - 1);
      var b := Iterate(q, s, n - 1);
      assert q.At(b.x) > 0.0 ==> b.x < root;
      assert q.At(b.x) < 0.0 ==> root < b.x;
    }
  }

  /** The bound a Newton step would pass. */
  datatype Clamped = Free | Above | Below

  function ClampOf(q: Charge, s: Search): Clamped
    requires Falling(q)
  {
    var b := Narrow(q, s);
    if Abs(q.At(s.x)) <= RESIDUAL_LIMIT then Free
    else if s.x + NewtonStep(q, s.x) > b.xmax then Above
    else if s.x + NewtonStep(q, s.x) < b.xmin then Below
    else Free
  }

  /** A clamped step halves the distance to the bound it would have passed. */
  lemma ClampHalves(q: Charge, s: Search)
    requires Falling(q)
    ensures ClampOf(q, s).Above? ==> Step(q, s).xmax - Step(q, s).x == 0.5 * (Step(q, s).xmax - s.x)
    ensures ClampOf(q, s).Below? ==> Step(q, s).x - Step(q, s).xmin == 0.5 * (s.x - Step(q, s).xmin)
  {}

  /** If the search ends with a clamped step, the zero is closer than the tolerance. */
  lemma ClampedStopIsAccurate(q: Charge, s: Search, root: real)
    requires Falling(q) && q.At(root) == 0.0 && Bracketed(s) && Holds(s, root)
    requires Done(q, s) && !ClampOf(q, s).Free?
    ensures Abs(Step(q, s).x - root) < EPSILON
  {}

  // ---------------------------------------------------------------------------------------
  // Convex charge

  /** The tangent at any point stays below the charge density. */
  ghost predicate Convex(q: Charge) {
    forall x: real, z: real {:trigger q.Slope(x), q.At(z)} :: q.At(z) >= q.At(x) + q.Slope(x) * (z - x)
  }

  /** A free Newton step from anywhere lands below the zero. */
  lemma FreeStepLandsBelow(q: Charge, x: real, root: real)
    requires Falling(q) && Convex(q) && q.At(root) == 0.0
    ensures x + NewtonStep(q, x) <= root
  {}

  /** For an affine charge density a free step hits the zero. */
  lemma AffineIsSolved(q: Charge, x: real)
    requires Falling(q) && forall z: real :: q.At(z) == q.At(x) + q.Slope(x) * (z - x)
    ensures q.At(x + NewtonStep(q, x)) == 0.0
  {
    var f, d, h := q.At(x), q.Slope(x), NewtonStep(q, x);
    NotFlat(q, x);
    assert q.At(x + h) == f + d * (x + h - x);
    assert x + h - x == h;
    hide Falling;
    Hit(f, d, h);
  }

  lemma Hit(f: real, d: real, h: real)
    requires d < 0.0 && h == -f / d
    ensures f + d * h == 0.0
  {}

  /** If the search ends with a step from below the zero, little charge is left at the level it returns. */
  lemma StopFromBelow(q: Charge, s: Search, root: real)
    requires Falling(q) && Convex(q) && q.At(root) == 0.0 && Bracketed(s) && Holds(s, root) && s.x <= root
    requires Done(q, s)
    ensures 0.0 <= q.At(Step(q, s).x) < 10000000000.0
  {
    StepFromBelow(q, s, root);
    DoneIsClose(q, s);
    var y := Step(q, s).x;
    assert y < root ==> q.At(y) > q.At(root);
    assert s.x < y ==> q.At(s.x) > q.At(y);
  }

  /** From below the zero every step is free and goes up, but not past the zero. */
  lemma StepFromBelow(q: Charge, s: Search, root: real)
    requires Falling(q) && Convex(q) && q.At(root) == 0.0 && Bracketed(s) && Holds(s, root) && s.x <= root
    ensures ClampOf(q, s).Free?
    ensures s.x <= Step(q, s).x <= root
  {
    FreeStepLandsBelow(q, s.x, root);
    StepSign(q, s.x);
    assert q.At(s.x) >= 0.0;
    assert NewtonStep(q, s.x) >= 0.0;
  }

  /** After the first free step the iterates increase and never pass the zero. */
  lemma {:induction false} IncreasingAfterFreeStep(q: Charge, s: Search, root: real, n: nat)
    requires Falling(q) && Convex(q) && q.At(root) == 0.0 && Bracketed(s) && Holds(s, root)
    requires ClampOf(q, s).Free? && Abs(q.At(s.x)) > RESIDUAL_LIMIT
    ensures Iterate(q, s, n + 1).x <= Iterate(q, s, n + 2).x <= root
    ensures ClampOf(q, Iterate(q, s, n + 1)).Free?
  {
    IteratesStayInside(q, s, 0, n + 1);
    RootKept(q, s, root, n + 1);
    if n == 0 {
      FreeStepLandsBelow(q, s.x, root);
      assert Iterate(q, s, 1) == Step(q, Iterate(q, s, 0));
      assert Iterate(q, s, 1).x <= root;
    } else {
      IncreasingAfterFreeStep(q, s, root, n - 1);
    }
    StepFromBelow(q, Iterate(q, s, n + 1), root);
  }

  /** Before that, only the lower bound can be hit: clamped steps come down from above the zero. */
  lemma ClampedOnlyFromAbove(q: Charge, s: Search, root: real)
    requires Falling(q) && Convex(q) && q.At(root) == 0.0 && Bracketed(s) && Holds(s, root)
    requires !ClampOf(q, s).Free?
    ensures ClampOf(q, s).Below? && root < s.x
  {
    if s.x <= root { StepFromBelow(q, s, root); }
    StepSign(q, s.x);
    assert root < s.x ==> q.At(s.x) < 0.0;
  }
}
