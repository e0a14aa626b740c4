/** Both switches of the exponential flux, that of the exponential factors at a quasi-Fermi drop of
    0.1 and that of the Bernoulli function at a potential drop of 1e-4: exactly when the flux has a
    derivative along a change of the end potentials. The Jacobian theorem has to keep off them. */
module SwitchJump {
  import opened Calculus
  import opened Exponential
  import opened EdgeFlux
  import opened Crossing

  // ---------------------------------------------------------------------------------------
  // Curves that agree on one side

  predicate OnSide(right: bool, radius: real, h: Arg) {
    if right then 0.0 < h as real < radius else -radius < h as real < 0.0
  }

  ghost predicate Agree(p: Curve, q: Curve, right: bool, radius: real) {
    forall h: Arg :: OnSide(right, radius, h) ==> p(h) == q(h)
  }

  lemma SidesMeet(p: Curve, q: Curve, a: real, b: real, right: bool, radius: real)
    requires Tends(p, a) && Tends(q, b) && radius > 0.0 && Agree(p, q, right, radius)
    ensures a == b
  {
    var e := if a == b then 1.0 else Abs(a - b) / 4.0;
    var s := Radius(p, a, e);
    var t := Radius(q, b, e);
    hide Tends;
    var step := Min(radius, Min(s, t)) / 2.0;
    var h: Arg := (if right then step else -step) as Arg;
    assert OnSide(right, radius, h);
    assert Near(p(h), a, e);
    assert Near(p(h), b, e);
  }

  lemma SlopesMeet(p: Curve, q: Curve, d: real, c: real, right: bool, radius: real)
    requires HasDeriv(p, d) && HasDeriv(q, c) && radius > 0.0 && Agree(p, q, right, radius)
    ensures p(0.0) == q(0.0) && d == c
  {
    DerivContinuous(p, d);
    DerivContinuous(q, c);
    SidesMeet(p, q, p(0.0), q(0.0), right, radius);
    SidesMeet(Slope(p), Slope(q), d, c, right, radius);
  }

  // ---------------------------------------------------------------------------------------
  // The exponential factors

  function Line(a: real, w: real): (p: Curve)
    ensures forall h: Arg {:trigger p(h)} :: p(h) == a + h as real * w
  {
    (h: Arg) => a + h as real * w
  }

  /** What the factors of both ends contribute, with weights x and y. */
  function Factors(ex: ExpFun, x: real, y: real, f: Curve): (p: Curve)
    ensures forall h: Arg {:trigger p(h)} :: p(h) == x * Left(ex, f(h)).val + y * Right(ex, f(h)).val
  {
    (h: Arg) => x * Left(ex, f(h)).val + y * Right(ex, f(h)).val
  }

  /** The same in the exponential branch only. */
  function Exponentials(ex: ExpFun, x: real, y: real, f: Curve): (p: Curve)
    ensures forall h: Arg {:trigger p(h)} :: p(h) == x * (1.0 - Exp(ex, f(h))) + y * (Exp(ex, -f(h)) - 1.0)
  {
    (h: Arg) => x * (1.0 - Exp(ex, f(h))) + y * (Exp(ex, -f(h)) - 1.0)
  }

  lemma DerivExponentials(ex: ExpFun, x: real, y: real, f: Curve, w: real, e: real, i: real, t: real)
    requires IsExp(ex) && HasDeriv(f, w) && e == Exp(ex, f(0.0)) && i == Exp(ex, -f(0.0)) && t == x * e + y * i
    ensures HasDeriv(Exponentials(ex, x, y, f), -(w * t))
  {
    hide HasDeriv, IsExp, Exp;
    var neg := Scaled(-1.0, f);
    var up, down := After(ex, f), After(ex, neg);
    var l, r := Minus(Constant(1.0), up), Minus(down, Constant(1.0));
    var dl, dr := x * -(e * w), y * (i * -w);
    DerivLeftPart(ex, x, f, w, e * w, dl);
    DerivRightPart(ex, y, f, w, i * -w, dr);
    SumForm(ex, x, y, f, neg, up, down, l, r);
    SlopeForm(x, y, e, i, w, t);
    assert dl + dr == -(w * t);
    DerivSum(Scaled(x, l), dl, Scaled(y, r), dr, Exponentials(ex, x, y, f), dl + dr);
  }

  lemma DerivLeftPart(ex: ExpFun, x: real, f: Curve, w: real, u: real, d: real)
    requires IsExp(ex) && HasDeriv(f, w) && u == Exp(ex, f(0.0)) * w && d == x * -u
    ensures HasDeriv(Scaled(x, Minus(Constant(1.0), After(ex, f))), d)
  {
    hide HasDeriv, IsExp, Exp;
    var one, up := Constant(1.0), After(ex, f);
    DerivConst(one, 1.0);
    DerivExp(ex, f, w, up, u);
    DerivDiff(one, 0.0, up, u, Minus(one, up), -u);
    DerivScale(Minus(one, up), -u, x, Scaled(x, Minus(one, up)), d);
  }

  lemma DerivRightPart(ex: ExpFun, y: real, f: Curve, w: real, v: real, d: real)
    requires IsExp(ex) && HasDeriv(f, w) && v == Exp(ex, -f(0.0)) * -w && d == y * v
    ensures HasDeriv(Scaled(y, Minus(After(ex, Scaled(-1.0, f)), Constant(1.0))), d)
  {
    hide HasDeriv, IsExp, Exp;
    var one, neg := Constant(1.0), Scaled(-1.0, f);
    var down := After(ex, neg);
    DerivConst(one, 1.0);
    DerivScale(f, w, -1.0, neg, -w);
    assert neg(0.0) == -f(0.0);
    DerivExp(ex, neg, -w, down, v);
    DerivDiff(down, v, one, 0.0, Minus(down, one), v);
    DerivScale(Minus(down, one), v, y, Scaled(y, Minus(down, one)), d);
  }

  lemma SlopeForm(x: real, y: real, e: real, i: real, w: real, t: real)
    requires t == x * e + y * i
    ensures x * -(e * w) + y * (i * -w) == -(w * t)
  {}

  lemma SumForm(ex: ExpFun, x: real, y: real, f: Curve, neg: Curve, up: Curve, down: Curve, l: Curve, r: Curve)
    requires neg == Scaled(-1.0, f) && up == After(ex, f) && down == After(ex, neg)
    requires l == Minus(Constant(1.0), up) && r == Minus(down, Constant(1.0))
    ensures forall h: Arg :: Exponentials(ex, x, y, f)(h) == Scaled(x, l)(h) + Scaled(y, r)(h)
  {
    hide Exp;
    forall h: Arg ensures Exponentials(ex, x, y, f)(h) == Scaled(x, l)(h) + Scaled(y, r)(h) {
      assert neg(h) == -f(h);
      assert l(h) == 1.0 - up(h) && r(h) == down(h) - 1.0;
    }
  }

  /** The two branches never meet in value and in slope. */
  lemma BranchesDiffer(x: real, y: real, a: real, e: real, i: real, p: real, q: real)
    requires x >= 0.0 && y >= 0.0 && x + y > 0.0 && p == x * e && q == y * i
    requires e > 0.0 && e != 1.0 && e * i == 1.0 && e * (2.0 - a) != 2.0 + a
    requires x - p + q - y == -(a * (x + y))
    ensures p + q != x + y
  {
    if p + q == x + y {
      var k, n := p - y, 2.0 + a - e * (2.0 - a);
      assert e * q == y && e * (p + q) == e * p + e * q && e * (x + y) == p + e * y;
      assert (e - 1.0) * k == 0.0;
      NoZero(e - 1.0, k);
      assert a * (x + y) == a * x + a * p;
      assert x * n == 2.0 * x + a * x - 2.0 * p + a * p;
      NoZero(n, x);
    }
  }

  lemma NoZero(a: real, b: real)
    requires a != 0.0
    ensures a * b == 0.0 ==> b == 0.0
  {}

  lemma Less(x: real, u: real, k: real)
    requires x < u && k > 0.0
    ensures x * k < u * k
  {
    var gap := u - x;
    Positive(gap, k);
    assert gap * k == u * k - x * k;
  }

  lemma Within(k: real, m: real, radius: real, size: real, t: real)
    requires 0.0 < k < radius && m > 0.0 && radius * m == size && t == k * m
    ensures 0.0 < t < size
  {
    Positive(k, m);
    Less(k, radius, m);
  }

  lemma SmallMove(w: real, h: real, radius: real, m: real, size: real, z: real)
    requires w != 0.0 && m == Abs(w) && radius * m == size && -radius < h < radius && h != 0.0 && z == h * w
    ensures -size < z < size && z != 0.0 && (z > 0.0 <==> (h > 0.0) == (w > 0.0))
  {
    var k := Abs(h);
    var t := k * m;
    Within(k, m, radius, size, t);
    if h > 0.0 && w < 0.0 { assert h * -w == -(h * w); }
    if h < 0.0 && w > 0.0 { assert (-h) * w == -(h * w); }
    if h < 0.0 && w < 0.0 { assert (-h) * (-w) == h * w; }
    assert z == t || z == -t;
  }

  lemma OuterAt(ex: ExpFun, x: real, y: real, f: Curve, h: Arg)
    requires Abs(f(h)) > 0.1
    ensures Factors(ex, x, y, f)(h) == Exponentials(ex, x, y, f)(h)
  {
    hide Exp;
  }

  lemma InnerAt(ex: ExpFun, x: real, y: real, f: Curve, h: Arg)
    requires Abs(f(h)) <= 0.1
    ensures Factors(ex, x, y, f)(h) == Scaled(-(x + y), f)(h)
  {
    hide Exp;
    LinearFactors(x, y, f(h));
  }

  /** Beyond the switch the factors are exponentials, before it they are linear. */
  lemma FactorSides(ex: ExpFun, x: real, y: real, a: real, w: real, right: bool, radius: real)
    requires Abs(a) == 0.1 && w != 0.0 && radius * Abs(w) == 0.1 && right == ((a > 0.0) == (w > 0.0))
    ensures Agree(Factors(ex, x, y, Line(a, w)), Exponentials(ex, x, y, Line(a, w)), right, radius)
    ensures Agree(Factors(ex, x, y, Line(a, w)), Scaled(-(x + y), Line(a, w)), !right, radius)
  {
    hide Exp, Left, Right, Factors, Exponentials;
    var f := Line(a, w);
    forall h: Arg | OnSide(right, radius, h)
      ensures Factors(ex, x, y, f)(h) == Exponentials(ex, x, y, f)(h)
    {
      SmallMove(w, h as real, radius, Abs(w), 0.1, h as real * w);
      OuterAt(ex, x, y, f, h);
    }
    forall h: Arg | OnSide(!right, radius, h)
      ensures Factors(ex, x, y, f)(h) == Scaled(-(x + y), f)(h)
    {
      SmallMove(w, h as real, radius, Abs(w), 0.1, h as real * w);
      InnerAt(ex, x, y, f, h);
    }
  }

  lemma LinearFactors(x: real, y: real, z: real)
    ensures x * -z + y * -z == -(x + y) * z
  {}

  lemma Reach(w: real, size: real) returns (radius: real)
    requires w != 0.0 && size > 0.0
    ensures radius > 0.0 && radius * Abs(w) == size
  {
    var m := Abs(w);
    radius := size / m;
    assert radius * m == size;
    if radius <= 0.0 { Grows(radius, 0.0, m); }
  }

  lemma AtZero(ex: ExpFun, x: real, y: real, a: real, w: real, e: real, i: real, p: real, q: real)
    requires e == Exp(ex, a) && i == Exp(ex, -a) && p == x * e && q == y * i
    ensures Exponentials(ex, x, y, Line(a, w))(0.0) == x - p + q - y
    ensures Scaled(-(x + y), Line(a, w))(0.0) == -(a * (x + y))
  {
    hide Exp;
    assert Line(a, w)(0.0) == a;
    assert x * (1.0 - e) == x - p && y * (i - 1.0) == q - y;
  }

  lemma SameSpeed(w: real, a: real, b: real)
    requires w != 0.0 && -(w * a) == -b * w
    ensures a == b
  {
    var c := a - b;
    assert w * c == 0.0;
    NoZero(w, c);
  }

  /** At the switch no weights and no speed give the factors a derivative. */
  lemma FactorsBreak(ex: ExpFun, x: real, y: real, a: real, w: real, d: real)
    requires IsExp(ex) && Abs(a) == 0.1 && w != 0.0 && x >= 0.0 && y >= 0.0 && x + y > 0.0
    ensures !HasDeriv(Factors(ex, x, y, Line(a, w)), d)
  {
    var e, i := Exp(ex, a), Exp(ex, -a);
    ExpSign(ex, a);
    ExpPositive(ex, a);
    ExpInverse(ex, a);
    NoCrossing(ex, a);
    hide HasDeriv, IsExp, Exp, Agree, Left, Right, Factors, Exponentials;
    if HasDeriv(Factors(ex, x, y, Line(a, w)), d) {
      BothSlopes(ex, x, y, a, w, d, e, i, x * e, y * i);
      BranchesDiffer(x, y, a, e, i, x * e, y * i);
    }
  }

  /** With a derivative at the switch the branches would meet in value and in slope. */
  lemma BothSlopes(ex: ExpFun, x: real, y: real, a: real, w: real, d: real, e: real, i: real, p: real, q: real)
    requires IsExp(ex) && Abs(a) == 0.1 && w != 0.0 && HasDeriv(Factors(ex, x, y, Line(a, w)), d)
    requires e == Exp(ex, a) && i == Exp(ex, -a) && p == x * e && q == y * i
    ensures x - p + q - y == -(a * (x + y)) && p + q == x + y
  {
    hide HasDeriv, IsExp, Exp, Agree, Left, Right, Factors, Exponentials;
    var line := Line(a, w);
    var f, outer, inner := Factors(ex, x, y, line), Exponentials(ex, x, y, line), Scaled(-(x + y), line);
    var right := (a > 0.0) == (w > 0.0);
    var radius := Reach(w, 0.1);
    FactorSides(ex, x, y, a, w, right, radius);
    AtZero(ex, x, y, a, w, e, i, p, q);
    assert line(0.0) == a;
    DerivAffine(line, a, w);
    var t := p + q;
    DerivExponentials(ex, x, y, line, w, e, i, t);
    DerivScale(line, w, -(x + y), inner, -(x + y) * w);
    SlopesMeet(f, outer, d, -(w * t), right, radius);
    SlopesMeet(f, inner, d, -(x + y) * w, !right, radius);
    SameSpeed(w, t, x + y);
  }

  // ---------------------------------------------------------------------------------------
  // The flux along a change of the quasi-Fermi potentials

  function AlongFermi(s: Edge1, u: real, v: real, h: Arg): Edge1 {
    s.(q1 := s.q1 + h as real * u, q2 := s.q2 + h as real * v)
  }

  /** Nothing can flow: no dual face, or no conductivity at either end. */
  predicate Idle(s: Edge1) {
    s.area == 0.0 || (s.c1 == 0.0 && s.c2 == 0.0)
  }

  lemma FluxForm(ex: ExpFun, s: Edge1, x: real, y: real)
    requires IsExp(ex) && s.Geometric()
    requires x == s.c1 * Bernoulli(ex, s.Drop()).val && y == s.c2 * (s.Drop() + Bernoulli(ex, s.Drop()).val)
    ensures FluxSG(ex, s)
      == HalfCoefficient(s) * (x * Left(ex, s.FermiDrop()).val + y * Right(ex, s.FermiDrop()).val)
  {
    hide IsExp, Bernoulli, Left, Right, Coefficient;
    var g := PartsSG(ex, s);
    AveragedForm(Signed(s.positive, Coefficient(s)), s.c1, g.b1.val, g.l.val, s.c2, g.b2.val, g.r.val, x, y);
  }

  lemma AveragedForm(k: real, c1: real, b1: real, l: real, c2: real, b2: real, r: real, x: real, y: real)
    requires x == c1 * b1 && y == c2 * b2
    ensures Averaged(k, OneSided(c1, b1, l), OneSided(c2, b2, r)) == (0.5 * k) * (x * l + y * r)
  {
    assert c1 * (b1 * l) == x * l && c2 * (b2 * r) == y * r;
    Distribute3(k, x * l, y * r);
  }

  lemma Distribute3(k: real, a: real, b: real)
    ensures 0.5 * (k * a + k * b) == (0.5 * k) * (a + b)
  {}

  /** The weights of both ends; they vanish together only on an idle edge. */
  lemma EndWeights(ex: ExpFun, s: Edge1) returns (x: real, y: real)
    requires IsExp(ex) && s.Geometric() && s.c1 >= 0.0 && s.c2 >= 0.0
    ensures x == s.c1 * Bernoulli(ex, s.Drop()).val && y == s.c2 * (s.Drop() + Bernoulli(ex, s.Drop()).val)
    ensures x >= 0.0 && y >= 0.0 && (s.c1 > 0.0 || s.c2 > 0.0 ==> x + y > 0.0)
  {
    var b := Bernoulli(ex, s.Drop()).val;
    var n := s.Drop() + b;
    BernoulliPositive(ex, s.Drop());
    BernoulliPositive(ex, -s.Drop());
    BernoulliMirror(ex, s.Drop());
    hide IsExp, Bernoulli;
    SameSigns(s.c1, b);
    SameSigns(s.c2, n);
    x, y := s.c1 * b, s.c2 * n;
  }

  lemma FluxAlongFermi(ex: ExpFun, s: Edge1, u: real, v: real, x: real, y: real, h: Arg)
    requires IsExp(ex) && s.Geometric()
    requires x == s.c1 * Bernoulli(ex, s.Drop()).val && y == s.c2 * (s.Drop() + Bernoulli(ex, s.Drop()).val)
    ensures FluxSG(ex, AlongFermi(s, u, v, h))
      == HalfCoefficient(s) * Factors(ex, x, y, Line(s.FermiDrop(), Signed(!s.positive, u - v)))(h)
  {
    hide IsExp, Bernoulli, Left, Right;
    var m, z := AlongFermi(s, u, v, h), h as real;
    FluxForm(ex, m, x, y);
    assert z * (u - v) == z * u - z * v && z * -(u - v) == -(z * u - z * v);
    assert m.FermiDrop() == Line(s.FermiDrop(), Signed(!s.positive, u - v))(h);
  }

  lemma Rescaled(f: Curve, g: Curve, k: real, d: real) returns (c: real)
    requires HasDeriv(f, d) && k != 0.0 && forall h: Arg {:trigger f(h)} :: f(h) == k * g(h)
    ensures HasDeriv(g, c)
  {
    hide HasDeriv;
    var i := 1.0 / k;
    assert i * k == 1.0;
    c := i * d;
    forall h: Arg ensures g(h) == i * f(h) {
      assert i * (k * g(h)) == (i * k) * g(h);
    }
    DerivScale(f, d, i, g, c);
  }

  lemma HalfPositive(s: Edge1)
    requires s.Geometric()
    ensures s.area > 0.0 ==> HalfCoefficient(s) != 0.0
    ensures s.area == 0.0 ==> HalfCoefficient(s) == 0.0
  {
    CoefficientSign(s);
  }

  /** The factors are differentiable off the switch, or where nothing moves. */
  lemma FactorsSmooth(ex: ExpFun, x: real, y: real, a: real, w: real) returns (d: real)
    requires IsExp(ex) && (Abs(a) != 0.1 || w == 0.0)
    ensures HasDeriv(Factors(ex, x, y, Line(a, w)), d)
  {
    hide HasDeriv, IsExp, Left, Right;
    var f := Line(a, w);
    var p := Factors(ex, x, y, f);
    if w == 0.0 {
      d := 0.0;
      forall h: Arg ensures p(h) == p(0.0) {
        assert f(h) == a == f(0.0);
      }
      DerivConst(p, p(0.0));
    } else {
      assert f(0.0) == a;
      DerivAffine(f, a, w);
      var l, r: Curve := (h: Arg) => Left(ex, f(h)).val, (h: Arg) => Right(ex, f(h)).val;
      var dl, dr := Left(ex, a).der * w, Right(ex, a).der * w;
      DerivLeft(ex, f, w, l, dl);
      DerivRight(ex, f, w, r, dr);
      DerivScale(l, dl, x, Scaled(x, l), x * dl);
      DerivScale(r, dr, y, Scaled(y, r), y * dr);
      d := x * dl + y * dr;
      DerivSum(Scaled(x, l), x * dl, Scaled(y, r), y * dr, p, d);
    }
  }

  lemma FactorsSlopeExists(ex: ExpFun, x: real, y: real, a: real, w: real)
    requires IsExp(ex) && x >= 0.0 && y >= 0.0 && x + y > 0.0
    ensures (exists d: real :: HasDeriv(Factors(ex, x, y, Line(a, w)), d)) <==> Abs(a) != 0.1 || w == 0.0
  {
    hide HasDeriv, IsExp, Factors, Line;
    if Abs(a) != 0.1 || w == 0.0 {
      var d := FactorsSmooth(ex, x, y, a, w);
    } else {
      forall d: real ensures !HasDeriv(Factors(ex, x, y, Line(a, w)), d) { FactorsBreak(ex, x, y, a, w, d); }
    }
  }

  lemma MultipleExists(f: Curve, p: Curve, k: real)
    requires k != 0.0 && forall h: Arg {:trigger f(h)} :: f(h) == k * p(h)
    ensures (exists d: real :: HasDeriv(f, d)) <==> (exists d: real :: HasDeriv(p, d))
  {
    hide HasDeriv;
    if d: real :| HasDeriv(p, d) { DerivScale(p, d, k, f, k * d); }
    if d: real :| HasDeriv(f, d) { var c := Rescaled(f, p, k, d); }
  }

  /** The exponential flux has a derivative along a change of the quasi-Fermi potentials exactly off
      the switch, unless the drop does not move or nothing can flow. */
  lemma FermiSlopeExists(ex: ExpFun, s: Edge1, u: real, v: real, f: Curve)
    requires IsExp(ex) && s.Geometric() && s.c1 >= 0.0 && s.c2 >= 0.0
    requires forall h: Arg {:trigger f(h)} :: f(h) == Flux(ex, BIMSG, AlongFermi(s, u, v, h))
    ensures (exists d: real :: HasDeriv(f, d)) <==> Abs(s.q1 - s.q2) != 0.1 || u == v || Idle(s)
  {
    hide HasDeriv, IsExp, Left, Right, Bernoulli, FluxSG, Coefficient, Factors, Line;
    if Idle(s) {
      forall h: Arg ensures f(h) == 0.0 { IdleFlux(ex, AlongFermi(s, u, v, h)); }
      DerivConst(f, 0.0);
    } else {
      var a, w := s.FermiDrop(), Signed(!s.positive, u - v);
      var x, y := EndWeights(ex, s);
      var p := Factors(ex, x, y, Line(a, w));
      forall h: Arg ensures f(h) == HalfCoefficient(s) * p(h) { FluxAlongFermi(ex, s, u, v, x, y, h); }
      HalfPositive(s);
      MultipleExists(f, p, HalfCoefficient(s));
      FactorsSlopeExists(ex, x, y, a, w);
    }
  }

  lemma IdleFlux(ex: ExpFun, s: Edge1)
    requires IsExp(ex) && s.Geometric() && Idle(s)
    ensures FluxSG(ex, s) == 0.0
  {
    if s.area == 0.0 { NoFaceNoFlux(ex, BIMSG, s); }
  }

  // ---------------------------------------------------------------------------------------
  // The flux along a change of the electric potential

  function AlongPotential(s: Edge1, u: real, v: real, h: Arg): Edge1 {
    s.(p1 := s.p1 + h as real * u, p2 := s.p2 + h as real * v)
  }

  function BernoulliAlong(ex: ExpFun, f: Curve): (p: Curve)
    requires IsExp(ex)
    ensures forall h: Arg {:trigger p(h)} :: p(h) == Bernoulli(ex, f(h)).val
  {
    (h: Arg) => Bernoulli(ex, f(h)).val
  }

  /** At its switch the Bernoulli function jumps. */
  lemma BernoulliBreaks(ex: ExpFun, b: real, w: real, d: real)
    requires IsExp(ex) && Abs(b) == 0.0001 && w != 0.0
    ensures !HasDeriv(BernoulliAlong(ex, Line(b, w)), d)
  {
    hide HasDeriv, Bernoulli, Exp;
    var f := Line(b, w);
    var p, e := BernoulliAlong(ex, f), Exp(ex, b);
    if HasDeriv(p, d) {
      assert f(0.0) == b;
      DerivAffine(f, b, w);
      var den := DerivDenominator(ex, f, w, e * w);
      var r := DenominatorInverse(ex, b);
      var slope := (r * (1.0 - b * e * r)) * w;
      var inv, frac := DerivQuotient(f, w, den, e, r, slope);
      var right := (b > 0.0) == (w > 0.0);
      var radius := Reach(w, 0.0001);
      forall h: Arg | OnSide(right, radius, h) ensures p(h) == frac(h) {
        SmallMove(w, h as real, radius, Abs(w), 0.0001, h as real * w);
        FractionAt(ex, f(h), den(h), inv(h));
      }
      SlopesMeet(p, frac, d, slope, right, radius);
      JumpsThere(ex, b, e, inv(0.0));
    }
  }

  lemma DenominatorInverse(ex: ExpFun, b: real) returns (r: real)
    requires IsExp(ex) && b != 0.0
    ensures r * (Exp(ex, b) - 1.0) == 1.0
  {
    ExpSign(ex, b);
    var den := Exp(ex, b) - 1.0;
    r := 1.0 / den;
  }

  lemma JumpsThere(ex: ExpFun, b: real, e: real, i: real)
    requires IsExp(ex) && Abs(b) == 0.0001 && e == Exp(ex, b) && i * (e - 1.0) == 1.0
    ensures Bernoulli(ex, b).val != b * i
  {
    NoCrossing(ex, b);
    hide IsExp, Exp;
    if 1.0 - 0.5 * b == b * i { CrossingPoint(b, e, i); }
  }

  lemma CrossingPoint(b: real, e: real, i: real)
    requires i * (e - 1.0) == 1.0 && 1.0 - 0.5 * b == b * i
    ensures e * (2.0 - b) == 2.0 + b
  {
    assert (1.0 - 0.5 * b) * (e - 1.0) == b * (i * (e - 1.0));
  }

  /** What the edge contributes, by the Bernoulli function and by the drop itself. */
  lemma FluxByDrop(ex: ExpFun, s: Edge1, l: real, r: real, g: real, k: real)
    requires IsExp(ex) && s.Geometric() && l == Left(ex, s.FermiDrop()).val && r == Right(ex, s.FermiDrop()).val
    requires k == s.c2 * r && g == s.c1 * l + k
    ensures FluxSG(ex, s) == HalfCoefficient(s) * (g * Bernoulli(ex, s.Drop()).val + k * s.Drop())
  {
    hide IsExp, Bernoulli, Left, Right, HalfCoefficient, FluxSG;
    var z, b := s.Drop(), Bernoulli(ex, s.Drop()).val;
    FluxForm(ex, s, s.c1 * b, s.c2 * (z + b));
    ByDrop(s.c1, s.c2, l, r, z, b, g, k);
  }

  lemma ByDrop(c1: real, c2: real, l: real, r: real, z: real, b: real, g: real, k: real)
    requires k == c2 * r && g == c1 * l + k
    ensures c1 * b * l + c2 * (z + b) * r == g * b + k * z
  {}

  /** Both one-sided factors have the sign of the quasi-Fermi drop, so their weighted sum vanishes
      with the drop only. */
  lemma FactorSum(ex: ExpFun, s: Edge1, l: real, r: real, g: real, k: real)
    requires IsExp(ex) && l == Left(ex, s.FermiDrop()).val && r == Right(ex, s.FermiDrop()).val
    requires k == s.c2 * r && g == s.c1 * l + k && s.c1 >= 0.0 && s.c2 >= 0.0
    ensures s.q1 == s.q2 ==> l == 0.0 && r == 0.0 && g == 0.0 && k == 0.0
    ensures s.q1 != s.q2 && (s.c1 > 0.0 || s.c2 > 0.0) ==> g != 0.0
  {
    SideSigns(ex, s.FermiDrop());
    hide IsExp, Left, Right;
    if s.q1 != s.q2 {
      SameSigns(s.c1, l);
      SameSigns(s.c2, r);
    }
  }

  lemma SameSigns(c: real, f: real)
    requires c >= 0.0
    ensures f > 0.0 ==> c * f >= 0.0 && (c > 0.0 ==> c * f > 0.0)
    ensures f < 0.0 ==> c * f <= 0.0 && (c > 0.0 ==> c * f < 0.0)
  {
    if c > 0.0 && f > 0.0 { Positive(c, f); }
    if c > 0.0 && f < 0.0 { Positive(c, -f); assert c * -f == -(c * f); }
  }

  function ByBernoulli(ex: ExpFun, g: real, k: real, f: Curve): (p: Curve)
    requires IsExp(ex)
    ensures forall h: Arg {:trigger p(h)} :: p(h) == g * Bernoulli(ex, f(h)).val + k * f(h)
  {
    (h: Arg) => g * Bernoulli(ex, f(h)).val + k * f(h)
  }

  lemma FluxAlongPotential(ex: ExpFun, s: Edge1, u: real, v: real, l: real, r: real, g: real, k: real, h: Arg)
    requires IsExp(ex) && s.Geometric() && l == Left(ex, s.FermiDrop()).val && r == Right(ex, s.FermiDrop()).val
    requires k == s.c2 * r && g == s.c1 * l + k
    ensures FluxSG(ex, AlongPotential(s, u, v, h))
      == HalfCoefficient(s) * ByBernoulli(ex, g, k, Line(s.Drop(), Signed(!s.positive, u - v)))(h)
  {
    hide IsExp, Bernoulli, Left, Right, FluxSG;
    var m, z := AlongPotential(s, u, v, h), h as real;
    FluxByDrop(ex, m, l, r, g, k);
    assert z * (u - v) == z * u - z * v && z * -(u - v) == -(z * u - z * v);
    assert m.Drop() == Line(s.Drop(), Signed(!s.positive, u - v))(h);
  }

  /** Off the switch, or where nothing moves, the combination is differentiable. */
  lemma CombinationSmooth(ex: ExpFun, g: real, k: real, b: real, w: real) returns (d: real)
    requires IsExp(ex) && (Abs(b) != 0.0001 || w == 0.0 || g == 0.0)
    ensures HasDeriv(ByBernoulli(ex, g, k, Line(b, w)), d)
  {
    hide HasDeriv, IsExp, Bernoulli;
    var f := Line(b, w);
    var p, q := ByBernoulli(ex, g, k, f), BernoulliAlong(ex, f);
    assert f(0.0) == b;
    DerivAffine(f, b, w);
    if w == 0.0 {
      d := 0.0;
      forall h: Arg ensures p(h) == p(0.0) {
        assert f(h) == f(0.0);
      }
      DerivConst(p, p(0.0));
    } else if g == 0.0 {
      d := k * w;
      DerivScale(f, w, k, p, d);
    } else {
      var db := Bernoulli(ex, b).der * w;
      DerivBernoulli(ex, f, w, q, db);
      d := g * db + k * w;
      DerivScale(q, db, g, Scaled(g, q), g * db);
      DerivScale(f, w, k, Scaled(k, f), k * w);
      DerivSum(Scaled(g, q), g * db, Scaled(k, f), k * w, p, d);
    }
  }

  lemma CombinationBreaks(ex: ExpFun, g: real, k: real, b: real, w: real, d: real)
    requires IsExp(ex) && Abs(b) == 0.0001 && w != 0.0 && g != 0.0
    ensures !HasDeriv(ByBernoulli(ex, g, k, Line(b, w)), d)
  {
    hide HasDeriv, IsExp, Bernoulli;
    var f := Line(b, w);
    var p, q := ByBernoulli(ex, g, k, f), BernoulliAlong(ex, f);
    if HasDeriv(p, d) {
      DerivAffine(f, b, w);
      var part, rest := Scaled(k, f), Scaled(g, q);
      DerivScale(f, w, k, part, k * w);
      DerivDiff(p, d, part, k * w, rest, d - k * w);
      var c := Rescaled(rest, q, g, d - k * w);
      BernoulliBreaks(ex, b, w, c);
    }
  }

  lemma CombinationSlopeExists(ex: ExpFun, g: real, k: real, b: real, w: real)
    requires IsExp(ex)
    ensures (exists d: real :: HasDeriv(ByBernoulli(ex, g, k, Line(b, w)), d))
      <==> Abs(b) != 0.0001 || w == 0.0 || g == 0.0
  {
    hide HasDeriv, IsExp, ByBernoulli, Line;
    if Abs(b) != 0.0001 || w == 0.0 || g == 0.0 {
      var d := CombinationSmooth(ex, g, k, b, w);
    } else {
      forall d: real ensures !HasDeriv(ByBernoulli(ex, g, k, Line(b, w)), d) { CombinationBreaks(ex, g, k, b, w, d); }
    }
  }

  /** Along a change of the electric potential the exponential flux has a derivative exactly off the
      switch of the Bernoulli function, unless the drop does not move, the quasi-Fermi potentials
      agree, or nothing can flow. */
  lemma PotentialSlopeExists(ex: ExpFun, s: Edge1, u: real, v: real, f: Curve)
    requires IsExp(ex) && s.Geometric() && s.c1 >= 0.0 && s.c2 >= 0.0
    requires forall h: Arg {:trigger f(h)} :: f(h) == Flux(ex, BIMSG, AlongPotential(s, u, v, h))
    ensures (exists d: real :: HasDeriv(f, d))
      <==> Abs(s.p1 - s.p2) != 0.0001 || u == v || s.q1 == s.q2 || Idle(s)
  {
    hide HasDeriv, IsExp, Left, Right, Bernoulli, FluxSG, Coefficient, ByBernoulli, Line;
    if Idle(s) {
      forall h: Arg ensures f(h) == 0.0 { IdleFlux(ex, AlongPotential(s, u, v, h)); }
      DerivConst(f, 0.0);
    } else {
      var b, w := s.Drop(), Signed(!s.positive, u - v);
      var l, r := Left(ex, s.FermiDrop()).val, Right(ex, s.FermiDrop()).val;
      var k := s.c2 * r;
      var g := s.c1 * l + k;
      FactorSum(ex, s, l, r, g, k);
      var p := ByBernoulli(ex, g, k, Line(b, w));
      forall h: Arg ensures f(h) == HalfCoefficient(s) * p(h) { FluxAlongPotential(ex, s, u, v, l, r, g, k, h); }
      HalfPositive(s);
      MultipleExists(f, p, HalfCoefficient(s));
      CombinationSlopeExists(ex, g, k, b, w);
    }
  }
}
