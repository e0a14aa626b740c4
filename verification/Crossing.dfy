/** The exponential function never meets (2 + a) / (2 - a), its own approximation of first order in
    numerator and denominator, except at zero. The proof halves the argument: tanh(s) < s. */
module Crossing {
  import opened Calculus
  import opened Exponential

  /** exp(2 s) - 1 is at least r * s * (exp(2 s) + 1); for r = 1 this is tanh(s) >= s. */
  ghost predicate Steep(ex: ExpFun, s: real, r: real) {
    Exp(ex, 2.0 * s) - 1.0 >= r * (s * (Exp(ex, 2.0 * s) + 1.0))
  }

  lemma Doubles(ex: ExpFun, s: real)
    requires IsExp(ex)
    ensures Exp(ex, 2.0 * s) == Exp(ex, s) * Exp(ex, s)
  {
    assert Additive(ex, s, s) && s + s == 2.0 * s;
  }

  lemma Square(x: real)
    ensures x * x >= 0.0
  {}

  lemma SquareOf(x: real) returns (q: real)
    requires x > 0.0
    ensures q == x * x && q > 0.0
  {
    var half := x / 2.0;
    Positive(x, half);
    q := x * x;
    assert q == x * half + x * half;
  }

  lemma Grows(x: real, u: real, k: real)
    requires x <= u && k >= 0.0
    ensures x * k <= u * k
  {
    assert (u - x) * k >= 0.0;
  }

  lemma Cancels(x: real, y: real)
    requires y > 0.0 && x * y >= 0.0
    ensures x >= 0.0
  {
    if x < 0.0 { Positive(-x, y); }
  }

  lemma HalfSteep(e: real, s: real, r: real)
    requires e > 0.0 && s > 0.0 && r >= 1.0 && e * e - 1.0 >= r * (s * (e * e + 1.0))
    ensures e - 1.0 >= r * (s / 2.0 * (e + 1.0))
  {
    var t, p, m := r * s, e + 1.0, e - 1.0;
    Positive(r, s);
    Square(m);
    Grows(p * p / 2.0, e * e + 1.0, t);
    assert m * p >= t * (e * e + 1.0);
    assert (m - t / 2.0 * p) * p == m * p - (p * p / 2.0) * t;
    Cancels(m - t / 2.0 * p, p);
    assert r * (s / 2.0 * p) == t / 2.0 * p;
  }

  lemma HalfOf(ex: ExpFun, s: real, r: real)
    requires IsExp(ex) && s > 0.0 && r >= 1.0 && Steep(ex, s, r)
    ensures Steep(ex, s / 2.0, r)
  {
    Doubles(ex, s);
    ExpPositive(ex, s);
    hide IsExp;
    assert 2.0 * (s / 2.0) == s;
    HalfSteep(Exp(ex, s), s, r);
  }

  /** Halving s keeps a ratio above one, but near zero the ratio is at most 1/(1 - s). */
  lemma {:induction false} NeverSteeper(ex: ExpFun, s: real, r: real, limit: real, c: real, n: nat)
    requires IsExp(ex) && s > 0.0 && r > 1.0 && 0.0 < limit < 0.5 && c == 1.0 - limit && r * c > 1.0
    requires s <= limit * n as real
    ensures !Steep(ex, s, r)
    decreases n
  {
    if n <= 1 {
      assert s <= limit by { Grows(n as real, 1.0, limit); }
      SmallNotSteep(ex, s, r, limit, c);
    } else {
      if Steep(ex, s, r) { HalfOf(ex, s, r); }
      HalfWithin(s, limit, n);
      NeverSteeper(ex, s / 2.0, r, limit, c, n - 1);
    }
  }

  lemma HalfWithin(s: real, limit: real, n: nat)
    requires n >= 2 && limit > 0.0 && s <= limit * n as real
    ensures s / 2.0 <= limit * (n - 1) as real
  {
    var k := n as real;
    var p := limit * k;
    assert (n - 1) as real == k - 1.0;
    Grows(2.0, k, limit);
    assert limit * (k - 1.0) == p - limit;
  }

  lemma SmallNotSteep(ex: ExpFun, s: real, r: real, limit: real, c: real)
    requires IsExp(ex) && 0.0 < s <= limit < 0.5 && c == 1.0 - limit && r > 1.0 && r * c > 1.0
    ensures !Steep(ex, s, r)
  {
    var e, i := Exp(ex, 2.0 * s), Exp(ex, -(2.0 * s));
    ExpPositive(ex, 2.0 * s);
    ExpInverse(ex, 2.0 * s);
    assert AboveTangent(ex, -(2.0 * s));
    hide IsExp, Additive, AboveTangent, Exp;
    Grows(1.0 - 2.0 * s, i, e);
    var g := s * (e + 1.0);
    Positive(s, e + 1.0);
    TangentBound(e, s, g);
    Beaten(e - 1.0, 1.0 - s, c, r, g);
  }

  lemma TangentBound(e: real, s: real, g: real)
    requires (1.0 - 2.0 * s) * e <= 1.0 && g == s * (e + 1.0)
    ensures (e - 1.0) * (1.0 - s) <= g
  {}

  lemma Beaten(m: real, d: real, c: real, r: real, g: real)
    requires 0.0 < c <= d && r > 0.0 && r * c > 1.0 && g > 0.0 && m * d <= g
    ensures m < r * g
  {
    var x := r * g;
    Positive(r, g);
    if m >= x {
      Grows(x, m, c);
      Larger(c, r, g, x);
      Grows(c, d, m);
    }
  }

  lemma Larger(c: real, r: real, g: real, x: real)
    requires r * c > 1.0 && g > 0.0 && x == r * g
    ensures x * c > g
  {
    var k := r * c - 1.0;
    Positive(k, g);
    assert k * g == x * c - g;
  }

  /** The first halving already gains a factor. */
  lemma Gain(e: real, s: real) returns (r: real)
    requires e > 1.0 && s > 0.0 && e * e - 1.0 >= s * (e * e + 1.0)
    ensures r > 1.0 && e - 1.0 >= r * (s / 2.0 * (e + 1.0))
  {
    var p, m := e + 1.0, e - 1.0;
    assert m * p >= s * ((p * p + m * m) / 2.0);
    GainStep(m, p, s);
    Positive(s / 2.0, p);
    r := Above(m, s / 2.0 * p);
  }

  lemma GainStep(m: real, p: real, s: real)
    requires m > 0.0 && p > 0.0 && s > 0.0 && m * p >= s * ((p * p + m * m) / 2.0)
    ensures m > s / 2.0 * p
  {
    var g := s / 2.0 * p;
    var q := SquareOf(m);
    Positive(s, q);
    assert s * ((p * p + q) / 2.0) == g * p + s * q / 2.0;
    if m <= g { Grows(m, g, p); }
  }

  lemma Above(m: real, g: real) returns (r: real)
    requires m > g > 0.0
    ensures r > 1.0 && r * g == m
  {
    r := m / g;
    assert r * g == m;
    if r <= 1.0 { Grows(r, 1.0, g); }
  }

  lemma Reciprocal(r: real) returns (i: real)
    requires r > 1.0
    ensures r * i == 1.0 && 0.0 < i < 1.0
  {
    i := 1.0 / r;
    assert r * i == 1.0;
    if i >= 1.0 { Grows(1.0, i, r); }
    if i <= 0.0 { Grows(i, 0.0, r); }
  }

  lemma Room(r: real) returns (limit: real, c: real)
    requires r > 1.0
    ensures 0.0 < limit < 0.5 && c == 1.0 - limit && r * c > 1.0
  {
    var i := Reciprocal(r);
    c := (1.0 + i) / 2.0;
    limit := 1.0 - c;
    HalfMore(r, i, c);
  }

  lemma HalfMore(r: real, i: real, c: real)
    requires r * i == 1.0 && 1.0 + i == 2.0 * c
    ensures r * c == (r + 1.0) / 2.0
  {
    assert r * (1.0 + i) == r + r * i;
    assert r * (2.0 * c) == 2.0 * (r * c);
  }

  lemma Multiple(s: real, limit: real) returns (n: nat)
    requires s > 0.0 && limit > 0.0
    ensures s <= limit * n as real
  {
    var q := s / limit;
    assert q * limit == s;
    if q < 0.0 { Positive(-q, limit); }
    n := q.Floor + 1;
    Grows(q, n as real, limit);
  }

  /** tanh(s) < s. */
  lemma TanhBelow(ex: ExpFun, s: real)
    requires IsExp(ex) && s > 0.0
    ensures Exp(ex, 2.0 * s) - 1.0 < s * (Exp(ex, 2.0 * s) + 1.0)
  {
    Doubles(ex, s);
    assert AboveTangent(ex, s);
    if Exp(ex, 2.0 * s) - 1.0 >= s * (Exp(ex, 2.0 * s) + 1.0) { TooSteep(ex, s, Exp(ex, s)); }
  }

  lemma TooSteep(ex: ExpFun, s: real, e: real)
    requires IsExp(ex) && s > 0.0 && e == Exp(ex, s) && e > 1.0
    ensures e * e - 1.0 < s * (e * e + 1.0)
  {
    hide IsExp, Steep, Exp;
    if e * e - 1.0 >= s * (e * e + 1.0) {
      var r := Gain(e, s);
      var limit, c := Room(r);
      var n := Multiple(s / 2.0, limit);
      NeverSteeper(ex, s / 2.0, r, limit, c, n);
      SteepAt(ex, s, r);
    }
  }

  lemma SteepAt(ex: ExpFun, s: real, r: real)
    requires Exp(ex, s) - 1.0 >= r * (s / 2.0 * (Exp(ex, s) + 1.0))
    ensures Steep(ex, s / 2.0, r)
  {
    assert 2.0 * (s / 2.0) == s;
  }

  /** exp meets the quotient (2 + a) / (2 - a) at zero only. */
  lemma NoCrossing(ex: ExpFun, a: real)
    requires IsExp(ex)
    ensures Exp(ex, a) * (2.0 - a) == 2.0 + a <==> a == 0.0
  {
    ExpZero(ex);
    ExpInverse(ex, a);
    if a > 0.0 {
      TanhBelow(ex, a / 2.0);
      assert 2.0 * (a / 2.0) == a;
    } else if a < 0.0 {
      TanhBelow(ex, -a / 2.0);
      assert 2.0 * (-a / 2.0) == -a;
      Reflected(Exp(ex, a), Exp(ex, -a), a);
    }
  }

  lemma Reflected(e: real, i: real, a: real)
    requires e * i == 1.0 && i - 1.0 < -a / 2.0 * (i + 1.0)
    ensures e * (2.0 - a) != 2.0 + a
  {
    assert i * (e * (2.0 - a)) == 2.0 - a;
  }
}
