/** Exactness of the angular quadrature: solid angles and integrated directions over all slices. */
module SphereSums {
  import opened Calculus
  import opened Forms
  import opened BoxMesh
  import opened AngularQuadrature

  // ---------------------------------------------------------------------------------------
  // From numbered slices to rows

  function OmegaTable(t: Trig, s: Setup): (nat, nat) -> real
    requires ValidSetup(s)
  {
    (np: nat, nt: nat) => Omega(t, s, np, nt)
  }

  /** A numbered list that is the table read row by row. */
  ghost predicate Numbered(f: nat -> real, t: (nat, nat) -> real, rows: nat, width: nat) {
    forall p: nat, q: nat :: p < rows && q < width ==> f(p * width + q) == t(p, q)
  }

  lemma {:induction false} RowOfList(f: nat -> real, t: (nat, nat) -> real, rows: nat, width: nat, p: nat, q: nat)
    requires Numbered(f, t, rows, width) && p < rows && q <= width
    ensures Sum(f, p * width + q) == Sum(f, p * width) + Sum(RowOf(t, p), q)
  {
    if q > 0 {
      RowOfList(f, t, rows, width, p, q - 1);
      assert f(p * width + (q - 1)) == t(p, q - 1);
    }
  }

  lemma {:induction false} ListOfRows(f: nat -> real, t: (nat, nat) -> real, rows: nat, width: nat, p: nat)
    requires Numbered(f, t, rows, width) && p <= rows
    ensures Sum(f, p * width) == Sum(RowSums(t, width), p)
  {
    if p == 0 {
      assert p * width == 0;
    } else {
      ListOfRows(f, t, rows, width, p - 1);
      RowOfList(f, t, rows, width, p - 1, width);
      assert (p - 1) * width + width == p * width;
    }
  }

  function OmegaOf(dOmega: seq<real>): nat -> real {
    (k: nat) => if k < |dOmega| then dOmega[k] else 0.0
  }

  /** One component of all integrated directions. */
  function DirectionOf(directions: seq<Vec>, a: Axis): nat -> real {
    (k: nat) => if k < |directions| then Component(directions[k], a) else 0.0
  }

  function DirectionTable(t: Trig, s: Setup, a: Axis): (nat, nat) -> real
    requires ValidSetup(s)
  {
    (np: nat, nt: nat) => Component(Integrated(t, s, np, nt), a)
  }

  lemma SlicesAreRows(t: Trig, s: Setup, dOmega: seq<real>, dir: seq<Vec>, directions: seq<Vec>, a: Axis)
    requires ValidSetup(s) && Filled(t, s, dOmega, dir, directions, Slices(s))
    ensures Sum(OmegaOf(dOmega), Slices(s)) == Sum(RowSums(OmegaTable(t, s), s.thetaSlices), s.phiSlices)
    ensures Sum(DirectionOf(directions, a), Slices(s))
      == Sum(RowSums(DirectionTable(t, s, a), s.thetaSlices), s.phiSlices)
  {
    hide Omega, Integrated, Middle;
    forall np: nat, nt: nat | np < s.phiSlices && nt < s.thetaSlices
      ensures OmegaOf(dOmega)(np * s.thetaSlices + nt) == OmegaTable(t, s)(np, nt)
      ensures DirectionOf(directions, a)(np * s.thetaSlices + nt) == DirectionTable(t, s, a)(np, nt)
    {
      SliceInRange(s, np, nt);
      assert Slice(s, np, nt) == np * s.thetaSlices + nt;
    }
    hide Filled;
    ListOfRows(OmegaOf(dOmega), OmegaTable(t, s), s.phiSlices, s.thetaSlices, s.phiSlices);
    ListOfRows(DirectionOf(directions, a), DirectionTable(t, s, a), s.phiSlices, s.thetaSlices, s.phiSlices);
  }

  // ---------------------------------------------------------------------------------------
  // Telescoping

  lemma {:induction false} Telescope(f: nat -> real, g: nat -> real, n: nat)
    requires forall i: nat :: i < n ==> f(i) == g(i) - g(i + 1)
    ensures Sum(f, n) == g(0) - g(n)
  {
    if n > 0 { Telescope(f, g, n - 1); }
  }

  /** The n-th edge and the n-th midpoint of a uniform division from a with step d. */
  function EdgeAt(a: real, d: real, n: nat): real { a + d * n as real }

  function MidAt(a: real, d: real, n: nat): real { a + d * 0.5 + d * n as real }

  function CosEdge(t: Trig, a: real, d: real): nat -> real {
    (n: nat) => t.Cos(EdgeAt(a, d, n))
  }

  function SinEdge(t: Trig, a: real, d: real): nat -> real {
    (n: nat) => t.Sin(EdgeAt(a, d, n))
  }

  function MidSin(t: Trig, a: real, d: real): nat -> real {
    (n: nat) => Product(t.Sin(MidAt(a, d, n)), t.Sin(0.5 * d))
  }

  function MidCos(t: Trig, a: real, d: real): nat -> real {
    (n: nat) => Product(t.Cos(MidAt(a, d, n)), t.Sin(0.5 * d))
  }

  lemma Edges(a: real, d: real, n: nat)
    ensures EdgeAt(a, d, n) == MidAt(a, d, n) - 0.5 * d && EdgeAt(a, d, n + 1) == MidAt(a, d, n) + 0.5 * d
  {}

  lemma MidStep(t: Trig, a: real, d: real, i: nat)
    requires IsTrig(t)
    ensures MidSin(t, a, d)(i) == (CosEdge(t, a, d)(i) - CosEdge(t, a, d)(i + 1)) * 0.5
    ensures MidCos(t, a, d)(i) == (SinEdge(t, a, d)(i + 1) - SinEdge(t, a, d)(i)) * 0.5
  {
    Edges(a, d, i);
    MidpointProducts(t, MidAt(a, d, i), 0.5 * d);
    hide IsTrig, EdgeAt, MidAt;
  }

  lemma FirstEdge(a: real, d: real)
    ensures EdgeAt(a, d, 0) == a
  {}

  lemma SinesTelescope(t: Trig, a: real, d: real, n: nat)
    requires IsTrig(t)
    ensures Sum(MidSin(t, a, d), n) == (t.Cos(a) - t.Cos(EdgeAt(a, d, n))) * 0.5
    ensures Sum(MidCos(t, a, d), n) == (t.Sin(EdgeAt(a, d, n)) - t.Sin(a)) * 0.5
  {
    hide IsTrig, MidSin, MidCos, Sum, EdgeAt;
    FirstEdge(a, d);
    var c, s := CosEdge(t, a, d), SinEdge(t, a, d);
    var cs, ss := HalfOf(c), HalfOf(Flipped(s));
    forall i: nat ensures MidSin(t, a, d)(i) == cs(i) - cs(i + 1) && MidCos(t, a, d)(i) == ss(i) - ss(i + 1) {
      MidStep(t, a, d, i);
    }
    Telescope(MidSin(t, a, d), cs, n);
    Telescope(MidCos(t, a, d), ss, n);
  }

  function HalfOf(f: nat -> real): nat -> real { (n: nat) => f(n) * 0.5 }

  function Flipped(f: nat -> real): nat -> real { (n: nat) => -f(n) }

  lemma FullTurn(t: Trig, a: real)
    requires IsTrig(t)
    ensures t.Cos(a + 2.0 * t.pi) == t.Cos(a) && t.Sin(a + 2.0 * t.pi) == t.Sin(a)
    ensures t.Cos(a + t.pi) == -t.Cos(a)
    ensures t.Cos(a + t.pi * 0.5) == -t.Sin(a)
  {
    assert AdditionLaws(t, a, 2.0 * t.pi) && AdditionLaws(t, a, t.pi) && AdditionLaws(t, a, t.pi / 2.0);
    assert t.pi * 0.5 == t.pi / 2.0;
  }

  // ---------------------------------------------------------------------------------------
  // Solid angles

  lemma StepsFill(t: Trig, s: Setup)
    requires ValidSetup(s)
    ensures DPhi(t, s) * s.phiSlices as real == 2.0 * t.pi
    ensures DTheta(t, s) * s.thetaSlices as real == MaxTheta(t, s) - MinTheta(s)
    ensures EdgeAt(MinTheta(s), DTheta(t, s), s.thetaSlices) == MaxTheta(t, s)
  {}

  /** The polar sum. */
  lemma PolarTotal(t: Trig, s: Setup)
    requires IsTrig(t) && ValidSetup(s)
    ensures Sum(MidSin(t, MinTheta(s), DTheta(t, s)), s.thetaSlices)
         == (t.Cos(MinTheta(s)) - t.Cos(MaxTheta(t, s))) * 0.5
  {
    SinesTelescope(t, MinTheta(s), DTheta(t, s), s.thetaSlices);
    StepsFill(t, s);
  }

  lemma {:induction false} ConstantSum(f: nat -> real, c: real, n: nat)
    requires forall i: nat :: i < n ==> f(i) == c
    ensures Sum(f, n) == n as real * c
  {
    if n > 0 {
      ConstantSum(f, c, n - 1);
      assert n as real * c == (n - 1) as real * c + c;
    }
  }

  lemma OmegaFactor(t: Trig, s: Setup, np: nat, nt: nat)
    requires ValidSetup(s)
    ensures Omega(t, s, np, nt) == 2.0 * Weight(s) * DPhi(t, s) * MidSin(t, MinTheta(s), DTheta(t, s))(nt)
  {
    hide DTheta, DPhi, Weight;
    assert Theta(t, s, nt) == MidAt(MinTheta(s), DTheta(t, s), nt);
    hide Theta, MidAt;
    Reorder(Weight(s), t.Sin(Theta(t, s, nt)), t.Sin(0.5 * DTheta(t, s)), DPhi(t, s));
  }

  lemma Reorder(w: real, a: real, b: real, d: real)
    ensures w * 2.0 * a * b * d == 2.0 * w * d * Product(a, b)
  {}

  lemma OmegaRow(t: Trig, s: Setup, np: nat)
    requires IsTrig(t) && ValidSetup(s)
    ensures Sum(RowOf(OmegaTable(t, s), np), s.thetaSlices)
         == Weight(s) * DPhi(t, s) * (t.Cos(MinTheta(s)) - t.Cos(MaxTheta(t, s)))
  {
    hide IsTrig, DTheta, DPhi, Weight, Sum, MidSin, Omega, MinTheta, MaxTheta;
    var f, g, k := RowOf(OmegaTable(t, s), np), MidSin(t, MinTheta(s), DTheta(t, s)), 2.0 * Weight(s) * DPhi(t, s);
    forall nt: nat | nt < s.thetaSlices ensures f(nt) == k * g(nt) {
      OmegaFactor(t, s, np, nt);
    }
    SumScale(g, k, f, s.thetaSlices);
    PolarTotal(t, s);
    HalfTwice(Weight(s), DPhi(t, s), t.Cos(MinTheta(s)) - t.Cos(MaxTheta(t, s)));
  }

  lemma HalfTwice(w: real, d: real, c: real)
    ensures 2.0 * w * d * (c * 0.5) == w * d * c
  {}

  /** Total solid angle for any offset of the angles. */
  lemma TotalSolidAngle(t: Trig, s: Setup, dOmega: seq<real>, dir: seq<Vec>, directions: seq<Vec>)
    requires IsTrig(t) && ValidSetup(s) && Filled(t, s, dOmega, dir, directions, Slices(s))
    ensures Sum(OmegaOf(dOmega), Slices(s))
         == if s.dim == 3 then 4.0 * t.pi * t.Cos(s.phiZero)
            else 4.0 * t.pi * (t.Cos(s.phiZero) + t.Sin(s.phiZero))
  {
    hide Omega, Filled, Sum, DPhi, DTheta;
    SlicesAreRows(t, s, dOmega, dir, directions, X);
    var c := t.Cos(MinTheta(s)) - t.Cos(MaxTheta(t, s));
    var row := Weight(s) * DPhi(t, s) * c;
    forall np: nat | np < s.phiSlices ensures RowSums(OmegaTable(t, s), s.thetaSlices)(np) == row {
      OmegaRow(t, s, np);
    }
    ConstantSum(RowSums(OmegaTable(t, s), s.thetaSlices), row, s.phiSlices);
    StepsFill(t, s);
    var w, d, n := Weight(s), DPhi(t, s), s.phiSlices as real;
    assert n * (w * d * c) == w * (d * n) * c;
    AddFullTurn(t, s);
    FullTurn(t, s.phiZero);
  }

  lemma AddFullTurn(t: Trig, s: Setup)
    ensures MaxTheta(t, s) == s.phiZero + (if s.dim == 3 then t.pi else t.pi * 0.5)
  {}

  /** Without an offset the slices cover the whole sphere, in every dimension and for every
      number of slices. */
  lemma SlicesCoverSphere(t: Trig, s: Setup, dOmega: seq<real>, dir: seq<Vec>, directions: seq<Vec>)
    requires IsTrig(t) && ValidSetup(s) && Filled(t, s, dOmega, dir, directions, Slices(s))
    ensures Sum(OmegaOf(dOmega), Slices(s)) == 4.0 * t.pi
       <==> (if s.dim == 3 then t.Cos(s.phiZero) == 1.0 else t.Cos(s.phiZero) + t.Sin(s.phiZero) == 1.0)
    ensures s.phiZero == 0.0 ==> Sum(OmegaOf(dOmega), Slices(s)) == 4.0 * t.pi
  {
    hide Filled, Sum;
    TotalSolidAngle(t, s, dOmega, dir, directions);
    var x := if s.dim == 3 then t.Cos(s.phiZero) else t.Cos(s.phiZero) + t.Sin(s.phiZero);
    OnlyOne(4.0 * t.pi, x);
  }

  lemma OnlyOne(a: real, x: real)
    requires a > 0.0
    ensures a * x == a <==> x == 1.0
  {}

  /** Slices have positive solid angle. */
  lemma SliceOpens(t: Trig, s: Setup, np: nat, nt: nat)
    requires IsTrig(t) && ValidSetup(s) && s.phiZero == 0.0 && nt < s.thetaSlices
    ensures Omega(t, s, np, nt) > 0.0
  {
    StepsFill(t, s);
    var d, theta := DTheta(t, s), Theta(t, s, nt);
    QuotientPositive(MaxTheta(t, s), s.thetaSlices as real, d);
    QuotientPositive(2.0 * t.pi, s.phiSlices as real, DPhi(t, s));
    MidpointInside(d, nt, s.thetaSlices, theta, MaxTheta(t, s));
    MidpointInside(d, 0, s.thetaSlices, d * 0.5 + d * 0 as real, MaxTheta(t, s));
    hide DTheta, DPhi, Theta;
    assert t.Sin(theta) > 0.0 && t.Sin(0.5 * d) > 0.0;
    Positive4(Weight(s), t.Sin(theta), t.Sin(0.5 * d), DPhi(t, s));
  }

  lemma MidpointInside(d: real, i: nat, n: nat, x: real, end: real)
    requires d > 0.0 && i < n && x == d * 0.5 + d * i as real && d * n as real == end
    ensures 0.0 < x < end
  {
    assert d * i as real >= 0.0;
    var gap := n as real - (i as real + 1.0);
    assert gap >= 0.0;
    NonNegative(d, gap);
    assert d * (n as real - (i as real + 1.0)) == d * n as real - d * i as real - d;
  }

  lemma QuotientPositive(a: real, b: real, q: real)
    requires a > 0.0 && b > 0.0 && q * b == a
    ensures q > 0.0
  {}

  lemma Positive4(w: real, a: real, b: real, d: real)
    requires w > 0.0 && a > 0.0 && b > 0.0 && d > 0.0
    ensures w * 2.0 * a * b * d > 0.0
  {}

  // ---------------------------------------------------------------------------------------
  // Directions

  function PhiStart(t: Trig, s: Setup): real { s.phiZero + s.phiZero * t.pi / 180.0 }

  /** The azimuthal factor of a horizontal component. */
  function Azimuth(t: Trig, s: Setup, a: Axis): nat -> real
    requires ValidSetup(s)
  {
    if a == X then MidSin(t, PhiStart(t, s), DPhi(t, s)) else MidCos(t, PhiStart(t, s), DPhi(t, s))
  }

  /** Over the full turn the azimuthal factors cancel. */
  lemma AzimuthCancels(t: Trig, s: Setup, a: Axis)
    requires IsTrig(t) && ValidSetup(s) && a != Z
    ensures Sum(Azimuth(t, s, a), s.phiSlices) == 0.0
  {
    StepsFill(t, s);
    SinesTelescope(t, PhiStart(t, s), DPhi(t, s), s.phiSlices);
    assert EdgeAt(PhiStart(t, s), DPhi(t, s), s.phiSlices) == PhiStart(t, s) + 2.0 * t.pi;
    FullTurn(t, PhiStart(t, s));
    hide IsTrig, MidSin, MidCos, DPhi, EdgeAt, PhiStart;
  }

  function PolarOf(t: Trig, s: Setup): nat -> real
    requires ValidSetup(s)
  {
    (nt: nat) => Weight(s) * PolarAt(t, Theta(t, s, nt), DTheta(t, s))
  }

  lemma HorizontalEntry(t: Trig, s: Setup, a: Axis, np: nat, nt: nat)
    requires ValidSetup(s) && a != Z
    ensures DirectionTable(t, s, a)(np, nt) == Azimuth(t, s, a)(np) * PolarOf(t, s)(nt)
  {
    hide DTheta, DPhi, Weight, PolarAt, Theta;
    assert Phi(t, s, np) == MidAt(PhiStart(t, s), DPhi(t, s), np);
    hide Phi, MidAt;
    var f := if a == X then t.Sin(Phi(t, s, np)) else t.Cos(Phi(t, s, np));
    Regroup4(Weight(s), f, t.Sin(0.5 * DPhi(t, s)), PolarAt(t, Theta(t, s, nt), DTheta(t, s)));
  }

  lemma Regroup4(w: real, f: real, h: real, q: real)
    ensures w * f * h * q == Product(f, h) * (w * q)
  {}

  lemma HorizontalRow(t: Trig, s: Setup, a: Axis, np: nat)
    requires ValidSetup(s) && a != Z
    ensures RowSums(DirectionTable(t, s, a), s.thetaSlices)(np)
         == Sum(PolarOf(t, s), s.thetaSlices) * Azimuth(t, s, a)(np)
  {
    hide Azimuth, PolarOf, DirectionTable;
    forall nt: nat | nt < s.thetaSlices
      ensures RowOf(DirectionTable(t, s, a), np)(nt) == Azimuth(t, s, a)(np) * PolarOf(t, s)(nt)
    {
      HorizontalEntry(t, s, a, np, nt);
    }
    SumScale(PolarOf(t, s), Azimuth(t, s, a)(np), RowOf(DirectionTable(t, s, a), np), s.thetaSlices);
  }

  /** The integrated directions cancel horizontally, in every dimension and for every offset. */
  lemma HorizontalCancels(t: Trig, s: Setup, a: Axis, dOmega: seq<real>, dir: seq<Vec>, directions: seq<Vec>)
    requires IsTrig(t) && ValidSetup(s) && a != Z && Filled(t, s, dOmega, dir, directions, Slices(s))
    ensures Sum(DirectionOf(directions, a), Slices(s)) == 0.0
  {
    hide Filled, Azimuth, PolarOf, DirectionTable, IsTrig, Sum;
    SlicesAreRows(t, s, dOmega, dir, directions, a);
    AzimuthCancels(t, s, a);
    var k, f := Sum(PolarOf(t, s), s.thetaSlices), RowSums(DirectionTable(t, s, a), s.thetaSlices);
    forall np: nat | np < s.phiSlices ensures f(np) == k * Azimuth(t, s, a)(np) {
      hide RowSums;
      HorizontalRow(t, s, a, np);
    }
    hide RowSums;
    SumScale(Azimuth(t, s, a), k, f, s.phiSlices);
  }

  lemma DoubleAngle(t: Trig, s: Setup, nt: nat)
    requires ValidSetup(s)
    ensures 2.0 * Theta(t, s, nt) == MidAt(2.0 * MinTheta(s), 2.0 * DTheta(t, s), nt)
    ensures 0.5 * (2.0 * DTheta(t, s)) == DTheta(t, s)
  {}

  /** The polar sum of the vertical components. */
  lemma VerticalTotal(t: Trig, s: Setup)
    requires IsTrig(t) && ValidSetup(s)
    ensures Sum(MidSin(t, 2.0 * MinTheta(s), 2.0 * DTheta(t, s)), s.thetaSlices)
         == (t.Cos(2.0 * MinTheta(s)) - t.Cos(2.0 * MaxTheta(t, s))) * 0.5
  {
    SinesTelescope(t, 2.0 * MinTheta(s), 2.0 * DTheta(t, s), s.thetaSlices);
    StepsFill(t, s);
    var d, n := DTheta(t, s), s.thetaSlices as real;
    assert 2.0 * d * n == 2.0 * (d * n);
    hide IsTrig, MidSin, DTheta;
    assert EdgeAt(2.0 * MinTheta(s), 2.0 * DTheta(t, s), s.thetaSlices) == 2.0 * MaxTheta(t, s);
  }

  lemma VerticalEntry(t: Trig, s: Setup, np: nat, nt: nat)
    requires ValidSetup(s)
    ensures DirectionTable(t, s, Z)(np, nt)
         == Weight(s) * 0.5 * DPhi(t, s) * MidSin(t, 2.0 * MinTheta(s), 2.0 * DTheta(t, s))(nt)
  {
    hide DTheta, DPhi, Weight;
    DoubleAngle(t, s, nt);
    hide Theta, MidAt, MinTheta;
    VerticalFactor(Weight(s) * 0.5 * DPhi(t, s), t.Sin(2.0 * Theta(t, s, nt)), t.Sin(DTheta(t, s)));
  }

  lemma VerticalRow(t: Trig, s: Setup, np: nat)
    requires IsTrig(t) && ValidSetup(s)
    ensures RowSums(DirectionTable(t, s, Z), s.thetaSlices)(np)
         == Weight(s) * 0.5 * DPhi(t, s) * ((t.Cos(2.0 * MinTheta(s)) - t.Cos(2.0 * MaxTheta(t, s))) * 0.5)
  {
    hide IsTrig, DTheta, DPhi, Weight, Sum, MidSin, DirectionTable, MinTheta, MaxTheta;
    var f, g := RowOf(DirectionTable(t, s, Z), np), MidSin(t, 2.0 * MinTheta(s), 2.0 * DTheta(t, s));
    VerticalTotal(t, s);
    forall nt: nat | nt < s.thetaSlices ensures f(nt) == Weight(s) * 0.5 * DPhi(t, s) * g(nt) {
      VerticalEntry(t, s, np, nt);
    }
    SumScale(g, Weight(s) * 0.5 * DPhi(t, s), f, s.thetaSlices);
  }

  lemma VerticalFactor(k: real, a: real, b: real)
    ensures k * a * b == k * Product(a, b)
  {}

  /** In three dimensions they cancel vertically as well. */
  lemma VerticalCancels(t: Trig, s: Setup, dOmega: seq<real>, dir: seq<Vec>, directions: seq<Vec>)
    requires IsTrig(t) && ValidSetup(s) && s.dim == 3 && Filled(t, s, dOmega, dir, directions, Slices(s))
    ensures Sum(DirectionOf(directions, Z), Slices(s)) == 0.0
  {
    hide Filled, DirectionTable, Sum, DPhi, DTheta;
    SlicesAreRows(t, s, dOmega, dir, directions, Z);
    FullTurn(t, 2.0 * s.phiZero);
    assert 2.0 * MaxTheta(t, s) == 2.0 * s.phiZero + 2.0 * t.pi;
    forall np: nat | np < s.phiSlices ensures RowSums(DirectionTable(t, s, Z), s.thetaSlices)(np) == 0.0 {
      VerticalRow(t, s, np);
    }
    SumZero(RowSums(DirectionTable(t, s, Z), s.thetaSlices), s.phiSlices);
  }
}
