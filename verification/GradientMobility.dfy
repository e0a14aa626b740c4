/** Mobilities that depend on the potential gradient along the edge: the entries of the exponential flux
    are its derivative for them as well. */
module GradientMobility {
  import opened Calculus
  import opened Exponential
  import opened EdgeFlux
  import opened BoxMesh
  import opened BoxJacobian

  /** Change of a conductivity with the field along the edge, when the scaled potentials move with v. */
  function ByField(g: real, s: Edge1, v: Row1): real
    requires s.len > 0.0
  {
    g * ((v.p2 - v.p1) / s.len)
  }

  /** The conductivities follow their own end and the field along the edge. */
  ghost predicate FieldMoves(s: Edge1, cs: EdgeCurves, m: Slopes1, v: Row1)
    requires s.len > 0.0
  {
    && HasDeriv(cs.q1, v.q1) && HasDeriv(cs.q2, v.q2)
    && HasDeriv(cs.p1, v.p1) && HasDeriv(cs.p2, v.p2)
    && HasDeriv(cs.c1, m.Moved1(v) + ByField(m.g1, s, v))
    && HasDeriv(cs.c2, m.Moved2(v) + ByField(m.g2, s, v))
  }

  function WithoutField(m: Slopes1): Slopes1 { m.(g1 := 0.0, g2 := 0.0) }

  /** The row with and without the gradient terms. */
  lemma FieldTerm(ex: ExpFun, s: Edge1, m: Slopes1, v: Row1, tmp: real)
    requires IsExp(ex) && s.Geometric() && tmp == GradientTerm(HalfCoefficient(s), PartsSG(ex, s), m, s.len)
    ensures Apply(RowSG(ex, s, m), v) == Apply(RowSG(ex, s, WithoutField(m)), v) + tmp * (v.p2 - v.p1)
  {
    hide PartsSG, HalfCoefficient, End, GradientTerm;
    NoGradient(HalfCoefficient(s), PartsSG(ex, s), s.len, WithoutField(m));
    assert WithoutField(m).Own1() == m.Own1() && WithoutField(m).Own2() == m.Own2();
    var a, b := RowSG(ex, s, m), RowSG(ex, s, WithoutField(m));
    assert a == b.(p1 := b.p1 - tmp, p2 := b.p2 + tmp);
    Added(b, v, tmp);
  }

  lemma NoGradient(half: real, g: Parts, len: real, m: Slopes1)
    requires len > 0.0 && m.g1 == 0.0 && m.g2 == 0.0
    ensures GradientTerm(half, g, m, len) == 0.0
  {
    assert g.b1.val * g.l.val * 0.0 + g.b2.val * g.r.val * 0.0 == 0.0;
    assert half * 0.0 / len == 0.0;
  }

  lemma Added(b: Row1, v: Row1, tmp: real)
    ensures Apply(b.(p1 := b.p1 - tmp, p2 := b.p2 + tmp), v) == Apply(b, v) + tmp * (v.p2 - v.p1)
  {}

  lemma EndWithField(c: real, dc: real, x: real, b: Value, f: Value)
    ensures EndMotion(c, dc + x, b, f) == EndMotion(c, dc, b, f) + x * (b.val * f.val)
  {}

  lemma TermByField(half: real, g: Parts, m: Slopes1, len: real, w: real, x1: real, x2: real)
    requires len > 0.0 && x1 == m.g1 * (w / len) && x2 == m.g2 * (w / len)
    ensures half * (x1 * (g.b1.val * g.l.val) + x2 * (g.b2.val * g.r.val)) == GradientTerm(half, g, m, len) * w
  {
    var r, a, b := w / len, g.b1.val * g.l.val, g.b2.val * g.r.val;
    var n := half * (a * m.g1 + b * m.g2);
    var q := n / len;
    assert q * len == n && r * len == w;
    assert x1 * a + x2 * b == r * (a * m.g1 + b * m.g2);
    assert half * (r * (a * m.g1 + b * m.g2)) == r * n;
    assert q * w == q * len * r;
  }

  /** The entries of the exponential flux, gradient terms included, are its derivative in every direction. */
  lemma DerivWithField(ex: ExpFun, s: Edge1, cs: EdgeCurves, m: Slopes1, v: Row1, f: Curve)
    requires IsExp(ex) && s.Geometric() && s == cs.At(s, 0.0) && FieldMoves(s, cs, m, v) && OffThreshold(BIMSG, s)
    requires forall h: Arg {:trigger f(h)} :: f(h) == FluxSG(ex, cs.At(s, h))
    ensures HasDeriv(f, Apply(RowSG(ex, s, m), v))
  {
    hide HasDeriv, PartsSG, Coefficient, RowSG, Slopes1.Moved1, Slopes1.Moved2, Motion, Apply, EndMotion, ByField;
    var g, x1, x2 := PartsSG(ex, s), ByField(m.g1, s, v), ByField(m.g2, s, v);
    var d := Motion(g, v);
    var b1, b2, l, r := DerivParts(ex, s, cs, v, g, d);
    var vb1, vl, vb2, vr := Value(g.b1.val, d.b1.der), Value(g.l.val, d.l.der), Value(g.b2.val, d.b2.der),
      Value(g.r.val, d.r.der);
    var d1 := EndMotion(s.c1, m.Moved1(v) + x1, vb1, vl);
    var d2 := EndMotion(s.c2, m.Moved2(v) + x2, vb2, vr);
    ProductRule(s.c1, m.Moved1(v) + x1, vb1, vl, d1);
    ProductRule(s.c2, m.Moved2(v) + x2, vb2, vr, d2);
    var e1 := DerivEnd(cs.c1, m.Moved1(v) + x1, b1, d.b1.der, l, d.l.der, d1);
    var e2 := DerivEnd(cs.c2, m.Moved2(v) + x2, b2, d.b2.der, r, d.r.der, d2);
    var sum, k := Plus(e1, e2), HalfCoefficient(s);
    DerivSum(e1, d1, e2, d2, sum, d1 + d2);
    FieldAlgebra(ex, s, m, v, g, d, d1, d2);
    forall h: Arg ensures f(h) == k * sum(h) { SGAlong(ex, s, cs, h, e1(h), e2(h)); }
    DerivScale(sum, d1 + d2, k, f, Apply(RowSG(ex, s, m), v));
  }

  lemma ProductRule(c: real, dc: real, b: Value, f: Value, d: real)
    requires d == EndMotion(c, dc, b, f)
    ensures d == dc * (b.val * f.val) + c * (b.der * f.val + b.val * f.der)
  {}

  lemma FieldAlgebra(ex: ExpFun, s: Edge1, m: Slopes1, v: Row1, g: Parts, d: Parts, d1: real, d2: real)
    requires IsExp(ex) && s.Geometric() && g == PartsSG(ex, s) && d == Motion(g, v)
    requires d1 == EndMotion(s.c1, m.Moved1(v) + ByField(m.g1, s, v), Value(g.b1.val, d.b1.der),
                            Value(g.l.val, d.l.der))
    requires d2 == EndMotion(s.c2, m.Moved2(v) + ByField(m.g2, s, v), Value(g.b2.val, d.b2.der),
                            Value(g.r.val, d.r.der))
    ensures HalfCoefficient(s) * (d1 + d2) == Apply(RowSG(ex, s, m), v)
  {
    hide PartsSG, RowSG, Motion, Apply, EndMotion, HalfCoefficient, GradientTerm;
    var m0, half, x1, x2 := WithoutField(m), HalfCoefficient(s), ByField(m.g1, s, v), ByField(m.g2, s, v);
    var vb1, vl, vb2, vr := Value(g.b1.val, d.b1.der), Value(g.l.val, d.l.der), Value(g.b2.val, d.b2.der),
      Value(g.r.val, d.r.der);
    assert m0.Moved1(v) == m.Moved1(v) && m0.Moved2(v) == m.Moved2(v);
    EndWithField(s.c1, m.Moved1(v), x1, vb1, vl);
    EndWithField(s.c2, m.Moved2(v), x2, vb2, vr);
    var a1, a2 := EndMotion(s.c1, m0.Moved1(v), vb1, vl), EndMotion(s.c2, m0.Moved2(v), vb2, vr);
    SGAlgebra(ex, s, m0, v, g, d, a1, a2);
    var w := v.p2 - v.p1;
    TermByField(half, g, m, s.len, w, x1, x2);
    FieldTerm(ex, s, m, v, GradientTerm(half, g, m, s.len));
    Gathered(half, a1, a2, x1 * (g.b1.val * g.l.val), x2 * (g.b2.val * g.r.val), d1, d2);
  }

  lemma Gathered(half: real, a1: real, a2: real, y1: real, y2: real, d1: real, d2: real)
    requires d1 == a1 + y1 && d2 == a2 + y2
    ensures half * (d1 + d2) == half * (a1 + a2) + half * (y1 + y2)
  {}

  /** The derivatives the assembly passes on: a conductivity whose derivative with respect to the potential gradient,
      in volts per length, is dgrad changes, with the scaled drop w along an edge, by dgrad times the unscaled
      field. */
  lemma FieldIsUnscaled(p: Params, el: Element, x: seq<real>, e: Edge, k: nat, w: real)
    requires p.Positive() && Fits(el, x) && WellFormedEdge(el, e) && k < |el.dofs|
    ensures p.x0 * e.len > 0.0
    ensures SlopesAt(p, el, x, e, k).g1 * (w / e.len)
      == Inner(Local(p, el, x, e.n1).dgrad(k), e.dir) * (p.phi0 * w / (p.x0 * e.len))
    ensures SlopesAt(p, el, x, e, k).g2 * (w / e.len)
      == Inner(Local(p, el, x, e.n2).dgrad(k), e.dir) * (p.phi0 * w / (p.x0 * e.len))
  {
    hide Local, Inner;
    Positive(p.x0, e.len);
    var m, i1, i2 := SlopesAt(p, el, x, e, k), Inner(Local(p, el, x, e.n1).dgrad(k), e.dir),
      Inner(Local(p, el, x, e.n2).dgrad(k), e.dir);
    var q, c := w / e.len, p.phi0 * w / (p.x0 * e.len);
    var g1, g2 := m.g1, m.g2;
    hide SlopesAt;
    UnscaledField(i1, p.phi0, p.x0, w, e.len, g1, q, c);
    UnscaledField(i2, p.phi0, p.x0, w, e.len, g2, q, c);
  }

  lemma UnscaledField(i: real, phi0: real, x0: real, w: real, len: real, a: real, b: real, c: real)
    requires x0 > 0.0 && len > 0.0 && x0 * len > 0.0
    requires a == i * phi0 / x0 && b == w / len && c == phi0 * w / (x0 * len)
    ensures a * b == i * c
  {
    var f, k, n := i * phi0, x0 * len, phi0 * w;
    Quotient(f, x0, a);
    Quotient(w, len, b);
    Quotient(n, k, c);
    SameQuotients(i, phi0, x0, w, len, f, k, n, a, b, c);
  }

  lemma Quotient(f: real, d: real, q: real)
    requires d > 0.0 && q == f / d
    ensures q * d == f
  {}

  lemma SameQuotients(i: real, phi0: real, x0: real, w: real, len: real, f: real, k: real, n: real, a: real, b: real,
                      c: real)
    requires f == i * phi0 && k == x0 * len && n == phi0 * w && k > 0.0
    requires a * x0 == f && b * len == w && c * k == n
    ensures a * b == i * c
  {
    var l, r := a * b, i * c;
    assert l * k == (a * x0) * (b * len);
    assert r * k == i * (c * k);
    assert f * w == i * n;
    SameProducts(l, r, k);
  }

  lemma SameProducts(a: real, b: real, k: real)
    requires k > 0.0 && a * k == b * k
    ensures a == b
  {
    var d := a - b;
    assert d * k == 0.0;
  }
}
