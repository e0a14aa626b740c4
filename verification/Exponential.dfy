/** The exponential function, known only through two algebraic laws:
    exp(a + b) = exp(a) * exp(b) and exp(x) >= 1 + x. */
module Exponential {
  import opened Calculus

  newtype Exponent = real

  type ExpFun = Exponent -> real

  function Exp(ex: ExpFun, x: real): real {
    ex(x as Exponent)
  }

  ghost predicate Additive(ex: ExpFun, a: real, b: real) {
    Exp(ex, a + b) == Exp(ex, a) * Exp(ex, b)
  }

  ghost predicate AboveTangent(ex: ExpFun, x: real) {
    Exp(ex, x) >= 1.0 + x
  }

  ghost predicate IsExp(ex: ExpFun) {
    && (forall a: real, b: real :: Additive(ex, a, b))
    && (forall x: real :: AboveTangent(ex, x))
  }

  function After(ex: ExpFun, f: Curve): (p: Curve)
    ensures forall h: Arg {:trigger p(h)} :: p(h) == Exp(ex, f(h))
  {
    (h: Arg) => Exp(ex, f(h))
  }

  lemma ExpZero(ex: ExpFun)
    requires IsExp(ex)
    ensures Exp(ex, 0.0) == 1.0
  {
    assert Additive(ex, 0.0, 0.0);
    assert AboveTangent(ex, 0.0);
    var e := Exp(ex, 0.0);
    assert e * (e - 1.0) == 0.0;
  }

  lemma ExpInverse(ex: ExpFun, x: real)
    requires IsExp(ex)
    ensures Exp(ex, x) * Exp(ex, -x) == 1.0
  {
    ExpZero(ex);
    assert Additive(ex, x, -x);
    assert x + -x == 0.0;
  }

  lemma ExpPositive(ex: ExpFun, x: real)
    requires IsExp(ex)
    ensures Exp(ex, x) > 0.0
  {
    assert Additive(ex, x / 2.0, x / 2.0);
    assert x / 2.0 + x / 2.0 == x;
    ExpInverse(ex, x);
    var r := Exp(ex, x / 2.0);
    assert r * r >= 0.0;
  }

  lemma ExpSign(ex: ExpFun, x: real)
    requires IsExp(ex)
    ensures x > 0.0 ==> Exp(ex, x) > 1.0
    ensures x < 0.0 ==> Exp(ex, x) < 1.0
    ensures x != 0.0 ==> Exp(ex, x) != 1.0
  {
    assert AboveTangent(ex, x);
    if x < 0.0 {
      assert AboveTangent(ex, -x);
      ExpInverse(ex, x);
      ExpPositive(ex, x);
      var p, q := Exp(ex, x), Exp(ex, -x);
      assert p * (q - 1.0) > 0.0;
    }
  }

  /** 0 <= exp(u) - 1 - u <= 2 u^2 for small u. */
  lemma ExpQuadratic(ex: ExpFun, u: real)
    requires IsExp(ex) && -0.5 <= u <= 0.5
    ensures 0.0 <= Exp(ex, u) - 1.0 - u <= 2.0 * (u * u)
  {
    assert AboveTangent(ex, u);
    assert AboveTangent(ex, -u);
    ExpInverse(ex, u);
    ExpPositive(ex, u);
    QuadraticBound(Exp(ex, u), Exp(ex, -u), u);
  }


  lemma QuadraticBound(p: real, q: real, u: real)
    requires p > 0.0 && p * q == 1.0 && q >= 1.0 - u && -0.5 <= u <= 0.5
    ensures p - 1.0 - u <= 2.0 * (u * u)
  {
    assert p * (1.0 - u) <= 1.0 by { assert p * (q - (1.0 - u)) >= 0.0; }
    var w := 1.0 + u + 2.0 * (u * u);
    var v := u * u;
    assert w * (1.0 - u) == 1.0 + v - 2.0 * (v * u);
    assert v >= 0.0;
    assert v * (0.5 - u) >= 0.0;
    assert w * (1.0 - u) >= 1.0;
    Cancel(p, w, 1.0 - u);
  }

  /** A curve squeezed between 0 and a curve that is flat at 0 is flat at 0. */
  lemma DerivSqueeze(g: Curve, upper: Curve, radius: real)
    requires HasDeriv(upper, 0.0) && radius > 0.0 && g(0.0) == 0.0 == upper(0.0)
    requires forall h: Arg :: -radius < h as real < radius ==> 0.0 <= g(h) <= upper(h)
    ensures HasDeriv(g, 0.0)
  {
    forall e: real | e > 0.0 ensures EventuallyNear(Slope(g), 0.0, e) {
      var d1 := Radius(Slope(upper), 0.0, e);
      var d := Min(d1, radius);
      forall h: Arg | h != 0.0 && -d < h as real < d ensures Near(Slope(g)(h), 0.0, e) {
        assert Near(Slope(upper)(h), 0.0, e);
        assert 0.0 <= g(h) <= upper(h);
        var a, b := Slope(g)(h), Slope(upper)(h);
        assert a * h as real == g(h) by { SlopeTimes(g, h); }
        assert b * h as real == upper(h) by { SlopeTimes(upper, h); }
        SlopeSqueeze(a, b, h as real, e);
      }
      assert NearWithin(Slope(g), 0.0, e, d);
    }
  }

  lemma SlopeSqueeze(a: real, b: real, h: real, e: real)
    requires h != 0.0 && 0.0 <= a * h <= b * h && -e <= b <= e
    ensures -e <= a <= e
  {}

  /** The remainder exp(u) - 1 - u lies between 0 and 2 u^2, so it is flat where u is 0. */
  lemma RemainderFlat(ex: ExpFun, u: Curve, du: real, rest: Curve)
    requires IsExp(ex) && HasDeriv(u, du) && u(0.0) == 0.0
    requires forall h: Arg :: rest(h) == Exp(ex, u(h)) - 1.0 - u(h)
    ensures HasDeriv(rest, 0.0)
  {
    var square := Times(u, u);
    var upper := Scaled(2.0, square);
    DerivProduct(u, du, u, du, square, 0.0);
    DerivScale(square, 0.0, 2.0, upper, 0.0);
    DerivContinuous(u, du);
    var radius := Radius(u, 0.0, 0.5);
    RemainderSqueezed(ex, u, rest, upper, radius);
    DerivSqueeze(rest, upper, radius);
  }

  lemma RemainderSqueezed(ex: ExpFun, u: Curve, rest: Curve, upper: Curve, radius: real)
    requires IsExp(ex) && u(0.0) == 0.0 && NearWithin(u, 0.0, 0.5, radius)
    requires forall h: Arg :: rest(h) == Exp(ex, u(h)) - 1.0 - u(h)
    requires upper == Scaled(2.0, Times(u, u))
    ensures rest(0.0) == 0.0 == upper(0.0)
    ensures forall h: Arg :: -radius < h as real < radius ==> 0.0 <= rest(h) <= upper(h)
  {
    ExpZero(ex);
    forall h: Arg | -radius < h as real < radius ensures 0.0 <= rest(h) <= upper(h) {
      assert h != 0.0 ==> Near(u(h), 0.0, 0.5);
      ExpQuadratic(ex, u(h));
    }
  }

  /** exp along a curve through 0. */
  lemma DerivExpAtZero(ex: ExpFun, u: Curve, du: real, p: Curve)
    requires IsExp(ex) && HasDeriv(u, du) && u(0.0) == 0.0
    requires forall h: Arg :: p(h) == Exp(ex, u(h))
    ensures HasDeriv(p, du)
  {
    var one := Constant(1.0);
    var line := Plus(one, u);
    var rest := Minus(After(ex, u), line);
    RemainderFlat(ex, u, du, rest);
    DerivConst(one, 1.0);
    DerivSum(one, 0.0, u, du, line, du);
    DerivSum(line, du, rest, 0.0, p, du);
  }

  lemma DerivShift(f: Curve, df: real) returns (u: Curve)
    requires HasDeriv(f, df)
    ensures HasDeriv(u, df) && u(0.0) == 0.0
    ensures forall h: Arg {:trigger u(h)} :: u(h) == f(h) - f(0.0)
  {
    var c := Constant(f(0.0));
    u := Minus(f, c);
    DerivConst(c, f(0.0));
    DerivDiff(f, df, c, 0.0, u, df);
  }

  /** Chain rule for exp. */
  lemma DerivExp(ex: ExpFun, f: Curve, df: real, p: Curve, d: real)
    requires IsExp(ex) && HasDeriv(f, df) && d == Exp(ex, f(0.0)) * df
    requires forall h: Arg {:trigger p(h)} :: p(h) == Exp(ex, f(h))
    ensures HasDeriv(p, d)
  {
    var u := DerivShift(f, df);
    var q := After(ex, u);
    DerivExpAtZero(ex, u, df, q);
    ExpFactor(ex, f, u, q, p);
    DerivScale(q, df, Exp(ex, f(0.0)), p, d);
  }

  lemma ExpFactor(ex: ExpFun, f: Curve, u: Curve, q: Curve, p: Curve)
    requires IsExp(ex)
    requires forall h: Arg :: u(h) == f(h) - f(0.0)
    requires forall h: Arg :: q(h) == Exp(ex, u(h))
    requires forall h: Arg :: p(h) == Exp(ex, f(h))
    ensures forall h: Arg :: p(h) == Exp(ex, f(0.0)) * q(h)
  {
    forall h: Arg ensures p(h) == Exp(ex, f(0.0)) * q(h) {
      assert Additive(ex, f(0.0), u(h));
      assert f(0.0) + u(h) == f(h);
    }
  }
}
