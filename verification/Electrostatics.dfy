/** What the displacement flux of the potential's rows means: Gauss's law across one dual face, and
    the exactness of the discretisation for affine potentials. */
module Electrostatics {
  import opened Calculus
  import opened Exponential
  import opened EdgeFlux
  import opened Forms
  import opened BoxMesh
  import opened BoxSystem
  import opened BoxBalance

  /** Indicator of one unknown of the element. */
  function Spot1(s: Slot): SlotTest { (r: Slot) => if r == s then 1.0 else 0.0 }

  lemma PotentialOnly(p: Params, ex: ExpFun, el: Element, x: seq<real>, e: Edge, n: nat)
    requires IsExp(ex) && p.Positive() && Fits(el, x) && WellFormedEdge(el, e) && n < el.nNodes
    ensures Dot(OneEdge(p, ex, el, x, e), Spot1(At(el, el.u, n)))
      == Jump(el, e, el.u, Spot1(At(el, el.u, n))) * PoissonFlux(p, el, x, e)
  {
    hide OneEdgeTerm, OneEdge, PoissonFlux;
    var t := Spot1(At(el, el.u, n));
    OneEdgeTested(p, ex, el, x, e, t);
    PotentialTerm(p, ex, el, x, e, t);
  }

  /** Tests of the potential alone see the displacement alone. */
  lemma PotentialTerm(p: Params, ex: ExpFun, el: Element, x: seq<real>, e: Edge, t: SlotTest)
    requires IsExp(ex) && p.Positive() && Fits(el, x) && WellFormedEdge(el, e)
    requires forall k: nat :: k < |el.dofs| && k != el.u ==> t(At(el, k, e.n1)) == t(At(el, k, e.n2)) == 0.0
    ensures OneEdgeTerm(p, ex, el, x, e, t) == Jump(el, e, el.u, t) * PoissonFlux(p, el, x, e)
  {
    hide PoissonFlux, CarrierFlux, Sum;
    forall k: nat | k < |el.dofs| ensures CarrierTerm(p, ex, el, x, e, t)(k) == 0.0 {
      if k != el.u {
        NoTimes(Jump(el, e, k, t), CarrierFlux(p, ex, el, x, e, k));
      }
    }
    hide CarrierTerm;
    SumZero(CarrierTerm(p, ex, el, x, e, t), |el.dofs|);
  }

  lemma NoTimes(j: real, f: real)
    requires j == 0.0
    ensures j * f == 0.0
  {}

  /** The displacement through the dual face: mean permittivity times field, plus mean polarization. */
  lemma DisplacementIs(p: Params, el: Element, x: seq<real>, e: Edge, eps1: real, eps2: real)
    requires p.Positive() && Fits(el, x) && WellFormedEdge(el, e)
    requires el.permTrace[e.n1] == 3.0 * eps1 && el.permTrace[e.n2] == 3.0 * eps2
    ensures var drop := x[Dof(el, el.u, e.n1)] - x[Dof(el, el.u, e.n2)];
      var pol := Inner(el.polarization[e.n1], e.dir) / 2.0 + Inner(el.polarization[e.n2], e.dir) / 2.0;
      PoissonFlux(p, el, x, e)
        == p.l2 * ((eps1 + eps2) / 2.0) * e.area * (drop / e.len) + e.area * pol / p.p0
  {
    hide Inner;
    var drop := x[Dof(el, el.u, e.n1)] - x[Dof(el, el.u, e.n2)];
    var c := p.l2 * ((eps1 + eps2) / 2.0) * e.area;
    FluxByLength(c, e.len, drop);
    assert (el.permTrace[e.n1] + el.permTrace[e.n2]) / 6.0 == (eps1 + eps2) / 2.0;
    assert PoissonCoefficient(p, el, e) == c / e.len;
  }

  lemma FluxByLength(c: real, len: real, drop: real)
    requires len > 0.0
    ensures c / len * drop == c * (drop / len)
  {
    var q, r := c / len, drop / len;
    assert q * len == c && r * len == drop;
    assert q * drop == q * len * r;
  }

  /** Gauss's law: what an edge adds to the potential's row of its first node, and takes from that of its
      second, is the displacement through its dual face. */
  lemma GaussAcrossFace(p: Params, ex: ExpFun, el: Element, x: seq<real>, e: Edge, eps1: real, eps2: real)
    requires IsExp(ex) && p.Positive() && Fits(el, x) && WellFormedEdge(el, e) && e.n1 != e.n2
    requires el.permTrace[e.n1] == 3.0 * eps1 && el.permTrace[e.n2] == 3.0 * eps2
    ensures var drop := x[Dof(el, el.u, e.n1)] - x[Dof(el, el.u, e.n2)];
      var pol := Inner(el.polarization[e.n1], e.dir) / 2.0 + Inner(el.polarization[e.n2], e.dir) / 2.0;
      var flux := p.l2 * ((eps1 + eps2) / 2.0) * e.area * (drop / e.len) + e.area * pol / p.p0;
      && Dot(OneEdge(p, ex, el, x, e), Spot1(At(el, el.u, e.n1))) == flux
      && Dot(OneEdge(p, ex, el, x, e), Spot1(At(el, el.u, e.n2))) == -flux
  {
    hide OneEdge, PoissonFlux, Inner;
    PotentialOnly(p, ex, el, x, e, e.n1);
    PotentialOnly(p, ex, el, x, e, e.n2);
    DisplacementIs(p, el, x, e, eps1, eps2);
    assert Jump(el, e, el.u, Spot1(At(el, el.u, e.n1))) == 1.0;
    assert Jump(el, e, el.u, Spot1(At(el, el.u, e.n2))) == -1.0;
  }

  // ---------------------------------------------------------------------------------------
  // Affine potentials

  /** The mesh lies in space: pos places the unknowns of the potential pv, and every edge runs along the
      difference of its ends. */
  ghost predicate Placed(m: Mesh, pv: nat, pos: nat -> Vec)
    requires Valid(m)
  {
    forall e: nat :: e < |m.elements| ==> PlacedElement(m.elements[e], pv, pos)
  }

  ghost predicate PlacedElement(el: Element, pv: nat, pos: nat -> Vec)
    requires WellFormed(el)
  {
    && (forall k: nat :: k < |el.dofs| ==> (el.vars[k] == pv <==> k == el.u))
    && forall i: nat :: i < |el.edges| ==>
         var e := el.edges[i];
         && pos(Dof(el, el.u, e.n2)).x - pos(Dof(el, el.u, e.n1)).x == e.len * e.dir.x
         && pos(Dof(el, el.u, e.n2)).y - pos(Dof(el, el.u, e.n1)).y == e.len * e.dir.y
         && pos(Dof(el, el.u, e.n2)).z - pos(Dof(el, el.u, e.n1)).z == e.len * e.dir.z
  }

  /** One material everywhere. */
  ghost predicate Homogeneous(m: Mesh, eps: real, pol: Vec)
    requires Valid(m)
  {
    forall e: nat, n: nat :: e < |m.elements| && n < m.elements[e].nNodes ==>
      m.elements[e].permTrace[n] == 3.0 * eps && m.elements[e].polarization[n] == pol
  }

  ghost predicate AffineAt(m: Mesh, x: seq<real>, pv: nat, pos: nat -> Vec, a: real, slope: Vec)
    requires |x| == m.size
  {
    forall g: nat :: g < m.size && m.owner(g) == pv ==> x[g] == a + Inner(slope, pos(g))
  }

  /** Outward area of an edge's dual face, seen from unknown g. */
  function FaceOf(el: Element, g: nat, a: Axis): nat -> real
    requires WellFormed(el)
  {
    (i: nat) => if i < |el.edges| then
        var e := el.edges[i];
        (Delta(g)(Dof(el, el.u, e.n1)) - Delta(g)(Dof(el, el.u, e.n2))) * (e.area * Component(e.dir, a))
      else 0.0
  }

  function FacesOf(m: Mesh, g: nat, a: Axis): nat -> real
    requires Valid(m)
  {
    (e: nat) => if e < |m.elements| then Sum(FaceOf(m.elements[e], g, a), |m.elements[e].edges|) else 0.0
  }

  /** The dual faces around an unknown close its box. */
  ghost predicate ClosedBox(m: Mesh, g: nat)
    requires Valid(m)
  {
    forall a: Axis :: Sum(FacesOf(m, g, a), |m.elements|) == 0.0
  }

  /** Displacement of an affine potential: linear in the face. */
  function Uniform(p: Params, eps: real, pol: Vec, slope: Vec): Vec
    requires p.Positive()
  {
    Vec(pol.x / p.p0 - p.l2 * eps * slope.x, pol.y / p.p0 - p.l2 * eps * slope.y, pol.z / p.p0 - p.l2 * eps * slope.z)
  }

  lemma AffineDrop(m: Mesh, x: seq<real>, pv: nat, pos: nat -> Vec, a: real, slope: Vec, e: nat, i: nat)
    requires Solvable(m, x) && Placed(m, pv, pos) && AffineAt(m, x, pv, pos, a, slope)
    requires e < |m.elements| && i < |m.elements[e].edges|
    ensures var el, edge := m.elements[e], m.elements[e].edges[i];
      x[Dof(el, el.u, edge.n1)] - x[Dof(el, el.u, edge.n2)] == -(edge.len * Inner(slope, edge.dir))
  {
    var el, edge := m.elements[e], m.elements[e].edges[i];
    assert PlacedElement(el, pv, pos) && WellFormedEdge(el, edge) && Numbered(m, el) && el.vars[el.u] == pv;
    var d1, d2 := Dof(el, el.u, edge.n1), Dof(el, el.u, edge.n2);
    assert m.owner(d1) == pv && m.owner(d2) == pv;
    InnerDifference(slope, pos(d1), pos(d2), edge.dir, edge.len);
  }

  lemma InnerDifference(s: Vec, a: Vec, b: Vec, d: Vec, l: real)
    requires b.x - a.x == l * d.x && b.y - a.y == l * d.y && b.z - a.z == l * d.z
    ensures Inner(s, a) - Inner(s, b) == -(l * Inner(s, d))
  {
    assert s.x * (b.x - a.x) == l * (s.x * d.x);
    assert s.y * (b.y - a.y) == l * (s.y * d.y);
    assert s.z * (b.z - a.z) == l * (s.z * d.z);
  }

  /** The flux across one face. */
  lemma AffineFlux(m: Mesh, x: seq<real>, pv: nat, pos: nat -> Vec, a: real, slope: Vec, eps: real, pol: Vec, e: nat,
                   i: nat)
    requires Solvable(m, x) && Placed(m, pv, pos) && AffineAt(m, x, pv, pos, a, slope) && Homogeneous(m, eps, pol)
    requires e < |m.elements| && i < |m.elements[e].edges|
    ensures var el, edge := m.elements[e], m.elements[e].edges[i];
      PoissonFlux(m.p, el, x, edge) == edge.area * Inner(Uniform(m.p, eps, pol, slope), edge.dir)
  {
    var el, edge := m.elements[e], m.elements[e].edges[i];
    assert WellFormedEdge(el, edge);
    DisplacementIs(m.p, el, x, edge, eps, eps);
    AffineDrop(m, x, pv, pos, a, slope, e, i);
    var drop, w := x[Dof(el, el.u, edge.n1)] - x[Dof(el, el.u, edge.n2)], Inner(slope, edge.dir);
    hide PoissonFlux, Solvable, Placed, AffineAt, Homogeneous, Inner, Uniform;
    FieldOf(edge.len, w, drop);
    Collect(m.p, eps, pol, slope, edge.dir, edge.area);
    assert drop / edge.len == -w;
  }

  lemma FieldOf(len: real, w: real, drop: real)
    requires len > 0.0 && drop == -(len * w)
    ensures drop / len == -w
  {
    var q := drop / len;
    assert q * len == drop;
  }

  lemma Collect(p: Params, eps: real, pol: Vec, slope: Vec, d: Vec, area: real)
    requires p.Positive()
    ensures p.l2 * ((eps + eps) / 2.0) * area * -Inner(slope, d)
      + area * (Inner(pol, d) / 2.0 + Inner(pol, d) / 2.0) / p.p0
      == area * Inner(Uniform(p, eps, pol, slope), d)
  {
    var k, n := p.l2 * eps, 1.0 / p.p0;
    DivideInner(pol, d, p.p0, n);
    assert Inner(Uniform(p, eps, pol, slope), d) == n * Inner(pol, d) - k * Inner(slope, d) by {
      UniformInner(p, eps, pol, slope, d, k, n);
    }
    Combine(p.l2, eps, k, area, Inner(slope, d), Inner(pol, d), n, p.p0);
  }

  lemma DivideInner(pol: Vec, d: Vec, p0: real, n: real)
    requires p0 > 0.0 && n == 1.0 / p0
    ensures pol.x / p0 == n * pol.x && pol.y / p0 == n * pol.y && pol.z / p0 == n * pol.z
  {}

  lemma UniformInner(p: Params, eps: real, pol: Vec, slope: Vec, d: Vec, k: real, n: real)
    requires p.Positive() && k == p.l2 * eps
    requires pol.x / p.p0 == n * pol.x && pol.y / p.p0 == n * pol.y && pol.z / p.p0 == n * pol.z
    ensures Inner(Uniform(p, eps, pol, slope), d) == n * Inner(pol, d) - k * Inner(slope, d)
  {
    ThreeTerms(n, k, pol, slope, d);
  }

  lemma ThreeTerms(n: real, k: real, a: Vec, b: Vec, d: Vec)
    ensures (n * a.x - k * b.x) * d.x + (n * a.y - k * b.y) * d.y + (n * a.z - k * b.z) * d.z
      == n * (a.x * d.x + a.y * d.y + a.z * d.z) - k * (b.x * d.x + b.y * d.y + b.z * d.z)
  {}

  lemma Combine(l2: real, eps: real, k: real, area: real, s: real, q: real, n: real, p0: real)
    requires p0 > 0.0 && k == l2 * eps && n == 1.0 / p0
    ensures l2 * ((eps + eps) / 2.0) * area * -s + area * (q / 2.0 + q / 2.0) / p0 == area * (n * q - k * s)
  {
    assert (eps + eps) / 2.0 == eps && q / 2.0 + q / 2.0 == q;
    var aq := area * q;
    assert aq / p0 == n * aq;
    assert l2 * eps * area * -s == -(k * area * s);
  }

  /** The fluxes of one edge, tested with an unknown of the potential. */
  lemma EdgeTermAt(m: Mesh, ex: ExpFun, x: seq<real>, pv: nat, pos: nat -> Vec, g: nat, e: nat, i: nat)
    requires IsExp(ex) && Solvable(m, x) && Placed(m, pv, pos) && m.owner(g) == pv
    requires e < |m.elements| && i < |m.elements[e].edges|
    ensures var el, edge := m.elements[e], m.elements[e].edges[i];
      EdgeTerm(m.p, ex, el, x, Test(el, Delta(g)))(i)
        == (Delta(g)(Dof(el, el.u, edge.n1)) - Delta(g)(Dof(el, el.u, edge.n2))) * PoissonFlux(m.p, el, x, edge)
  {
    var el, edge := m.elements[e], m.elements[e].edges[i];
    assert WellFormedEdge(el, edge) && Numbered(m, el) && PlacedElement(el, pv, pos);
    var t := Test(el, Delta(g));
    forall k: nat | k < |el.dofs| && k != el.u ensures t(At(el, k, edge.n1)) == t(At(el, k, edge.n2)) == 0.0 {
      NotOwned(m, el, pv, pos, g, k, edge.n1);
      NotOwned(m, el, pv, pos, g, k, edge.n2);
    }
    hide PoissonFlux, OneEdgeTerm, PlacedElement, Numbered, Placed;
    PotentialTerm(m.p, ex, el, x, edge, t);
    hide Solvable;
    assert t(At(el, el.u, edge.n1)) == Delta(g)(Dof(el, el.u, edge.n1));
    assert t(At(el, el.u, edge.n2)) == Delta(g)(Dof(el, el.u, edge.n2));
  }

  lemma NotOwned(m: Mesh, el: Element, pv: nat, pos: nat -> Vec, g: nat, k: nat, n: nat)
    requires WellFormed(el) && Numbered(m, el) && PlacedElement(el, pv, pos) && m.owner(g) == pv
    requires k < |el.dofs| && k != el.u && n < el.nNodes
    ensures Test(el, Delta(g))(At(el, k, n)) == 0.0
  {
    assert m.owner(el.dofs[k][Id(el, k, n)]) == el.vars[k];
  }

  function Along(f: nat -> real, a: real, h: nat -> real, b: real, k: nat -> real, c: real): nat -> real {
    (i: nat) => a * f(i) + b * h(i) + c * k(i)
  }

  lemma {:induction false} SumAlong(f: nat -> real, a: real, h: nat -> real, b: real, k: nat -> real, c: real, n: nat)
    ensures Sum(Along(f, a, h, b, k, c), n) == a * Sum(f, n) + b * Sum(h, n) + c * Sum(k, n)
  {
    if n > 0 {
      SumAlong(f, a, h, b, k, c, n - 1);
      Distribute(a, Sum(f, n - 1), f(n - 1));
      Distribute(b, Sum(h, n - 1), h(n - 1));
      Distribute(c, Sum(k, n - 1), k(n - 1));
    }
  }

  lemma FaceTimes(j: real, area: real, v: Vec, d: Vec)
    ensures j * (area * Inner(v, d)) == v.x * (j * (area * d.x)) + v.y * (j * (area * d.y)) + v.z * (j * (area * d.z))
  {
    var b := j * area;
    assert j * (area * Inner(v, d)) == b * Inner(v, d);
    assert j * (area * d.x) == b * d.x && j * (area * d.y) == b * d.y && j * (area * d.z) == b * d.z;
    assert b * (v.x * d.x) == v.x * (b * d.x) && b * (v.y * d.y) == v.y * (b * d.y);
    assert b * (v.z * d.z) == v.z * (b * d.z);
    assert b * (v.x * d.x + v.y * d.y + v.z * d.z) == b * (v.x * d.x) + b * (v.y * d.y) + b * (v.z * d.z);
  }

  lemma ElementFaces(m: Mesh, ex: ExpFun, x: seq<real>, pv: nat, pos: nat -> Vec, a: real, slope: Vec, eps: real,
                     pol: Vec, g: nat, e: nat)
    requires IsExp(ex) && Solvable(m, x) && Placed(m, pv, pos) && AffineAt(m, x, pv, pos, a, slope)
    requires Homogeneous(m, eps, pol) && m.owner(g) == pv && e < |m.elements|
    ensures var v := Uniform(m.p, eps, pol, slope);
      EdgeWorks(m, ex, x, Delta(g))(e)
        == Along(FacesOf(m, g, X), v.x, FacesOf(m, g, Y), v.y, FacesOf(m, g, Z), v.z)(e)
  {
    hide EdgeTerm, Along, Sum, Uniform, Placed, AffineAt, Homogeneous, EdgeWorks, FacesOf, FaceOf, Test;
    var el, v := m.elements[e], Uniform(m.p, eps, pol, slope);
    var f := EdgeTerm(m.p, ex, el, x, Test(el, Delta(g)));
    WorksAt(m, ex, x, g, e);
    forall i: nat | i < |el.edges|
      ensures f(i) == Along(FaceOf(el, g, X), v.x, FaceOf(el, g, Y), v.y, FaceOf(el, g, Z), v.z)(i)
    {
      OneFace(m, ex, x, pv, pos, a, slope, eps, pol, g, e, i);
    }
    Glue(f, FaceOf(el, g, X), FaceOf(el, g, Y), FaceOf(el, g, Z), FacesOf(m, g, X), FacesOf(m, g, Y),
         FacesOf(m, g, Z), v, |el.edges|, e);
  }

  lemma Glue(f: nat -> real, fx: nat -> real, fy: nat -> real, fz: nat -> real, gx: nat -> real, gy: nat -> real,
             gz: nat -> real, v: Vec, n: nat, e: nat)
    requires forall i: nat :: i < n ==> f(i) == Along(fx, v.x, fy, v.y, fz, v.z)(i)
    requires gx(e) == Sum(fx, n) && gy(e) == Sum(fy, n) && gz(e) == Sum(fz, n)
    ensures Sum(f, n) == Along(gx, v.x, gy, v.y, gz, v.z)(e)
  {
    hide Sum, Along;
    SumEqual(f, Along(fx, v.x, fy, v.y, fz, v.z), n);
    SumAlong(fx, v.x, fy, v.y, fz, v.z, n);
    AlongAt(gx, v.x, gy, v.y, gz, v.z, e);
  }

  lemma OneFace(m: Mesh, ex: ExpFun, x: seq<real>, pv: nat, pos: nat -> Vec, a: real, slope: Vec, eps: real, pol: Vec,
                g: nat, e: nat, i: nat)
    requires IsExp(ex) && Solvable(m, x) && Placed(m, pv, pos) && AffineAt(m, x, pv, pos, a, slope)
    requires Homogeneous(m, eps, pol) && m.owner(g) == pv && e < |m.elements| && i < |m.elements[e].edges|
    ensures var el, v := m.elements[e], Uniform(m.p, eps, pol, slope);
      EdgeTerm(m.p, ex, el, x, Test(el, Delta(g)))(i)
        == Along(FaceOf(el, g, X), v.x, FaceOf(el, g, Y), v.y, FaceOf(el, g, Z), v.z)(i)
  {
    hide PoissonFlux, EdgeTerm, Uniform, Inner, Placed, AffineAt, Homogeneous, Delta;
    EdgeTermAt(m, ex, x, pv, pos, g, e, i);
    AffineFlux(m, x, pv, pos, a, slope, eps, pol, e, i);
    var el, v := m.elements[e], Uniform(m.p, eps, pol, slope);
    var edge := el.edges[i];
    var j := Delta(g)(Dof(el, el.u, edge.n1)) - Delta(g)(Dof(el, el.u, edge.n2));
    FaceTimes(j, edge.area, v, edge.dir);
  }

  lemma WorksAt(m: Mesh, ex: ExpFun, x: seq<real>, g: nat, e: nat)
    requires IsExp(ex) && Solvable(m, x) && e < |m.elements|
    ensures var el := m.elements[e];
      && EdgeWorks(m, ex, x, Delta(g))(e) == Sum(EdgeTerm(m.p, ex, el, x, Test(el, Delta(g))), |el.edges|)
      && forall a: Axis :: FacesOf(m, g, a)(e) == Sum(FaceOf(el, g, a), |el.edges|)
  {
    hide EdgeTerm, FaceOf, Sum, Test;
  }

  lemma AlongAt(f: nat -> real, a: real, h: nat -> real, b: real, k: nat -> real, c: real, i: nat)
    ensures Along(f, a, h, b, k, c)(i) == a * f(i) + b * h(i) + c * k(i)
  {}

  /** In one material the displacement part of the potential's row vanishes for every affine potential, at
      every unknown whose box is closed: the discretisation is exact there. */
  lemma AffineIsExact(m: Mesh, ex: ExpFun, x: seq<real>, pv: nat, pos: nat -> Vec, a: real, slope: Vec, eps: real,
                      pol: Vec, g: nat)
    requires IsExp(ex) && Solvable(m, x) && Placed(m, pv, pos) && AffineAt(m, x, pv, pos, a, slope)
    requires Homogeneous(m, eps, pol) && g < m.size && m.owner(g) == pv && ClosedBox(m, g)
    ensures FluxResidual(m, ex, x, g) == 0.0
  {
    var v, n := Uniform(m.p, eps, pol, slope), |m.elements|;
    var fx, fy, fz := FacesOf(m, g, X), FacesOf(m, g, Y), FacesOf(m, g, Z);
    hide EdgeWorks, FacesOf, Along, Sum, FluxResidual, Placed, AffineAt, Homogeneous;
    FluxWeakForm(m, ex, x, Delta(g));
    forall e: nat | e < n ensures EdgeWorks(m, ex, x, Delta(g))(e) == Along(fx, v.x, fy, v.y, fz, v.z)(e) {
      ElementFaces(m, ex, x, pv, pos, a, slope, eps, pol, g, e);
    }
    SumEqual(EdgeWorks(m, ex, x, Delta(g)), Along(fx, v.x, fy, v.y, fz, v.z), n);
    SumAlong(fx, v.x, fy, v.y, fz, v.z, n);
    assert Sum(fx, n) == 0.0 && Sum(fy, n) == 0.0 && Sum(fz, n) == 0.0;
    OneRow(m, ex, x, g);
  }

  lemma OneRow(m: Mesh, ex: ExpFun, x: seq<real>, g: nat)
    requires IsExp(ex) && Solvable(m, x) && g < m.size
    ensures Sum(WeightedFlux(m, ex, x, Delta(g)), m.size) == FluxResidual(m, ex, x, g)
  {
    hide FluxResidual, Sum;
    var f := WeightedFlux(m, ex, x, Delta(g));
    forall h: nat | h < m.size && h != g ensures f(h) == 0.0 { NoTimes(Delta(g)(h), FluxResidual(m, ex, x, h)); }
    assert f(g) == FluxResidual(m, ex, x, g) by { OneTime(Delta(g)(g), FluxResidual(m, ex, x, g)); }
    hide WeightedFlux;
    SumSingle(f, g, m.size);
  }

  lemma OneTime(j: real, f: real)
    requires j == 1.0
    ensures j * f == f
  {}
}
