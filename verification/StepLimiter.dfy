/** Limitation of the Newton update: wherever a chemical potential would move by more than the
    limit, the potential and all carriers the element holds are scaled by the same factor. Elements
    that share a node may hold different carriers. */
module StepLimiter {
  import opened Calculus

  const MAX_STEP := 10.0

  /** Carriers and the electric potential have one unknown per node; dof numbers them. */
  datatype Numbering = Numbering(charges: seq<real>, nodes: nat, size: nat, dof: (nat, nat) -> nat)
  {
    function Potential(): nat { |charges| }
  }

  /** An element with its nodes and the carriers of its material. */
  datatype Cell = Cell(nodes: seq<nat>, carriers: seq<nat>)

  /** One pass of the node loop: the node and the carriers looked at there. */
  datatype Visit = Visit(node: nat, carriers: seq<nat>)

  ghost predicate Valid(g: Numbering) {
    && (forall v: nat, n: nat :: v <= |g.charges| && n < g.nodes ==> g.dof(v, n) < g.size)
    && forall v: nat, n: nat, w: nat, m: nat ::
         v <= |g.charges| && w <= |g.charges| && n < g.nodes && m < g.nodes && g.dof(v, n) == g.dof(w, m) ==>
           v == w && n == m
  }

  ghost predicate Carriers(g: Numbering, carriers: seq<nat>) {
    && (forall i :: 0 <= i < |carriers| ==> carriers[i] < |g.charges|)
    && forall i, j :: 0 <= i < j < |carriers| ==> carriers[i] != carriers[j]
  }

  ghost predicate Fits(g: Numbering, w: Visit) {
    w.node < g.nodes && Carriers(g, w.carriers)
  }

  ghost predicate Regular(g: Numbering, mesh: seq<Cell>) {
    forall e :: e in mesh ==> Carriers(g, e.carriers) && forall n :: n in e.nodes ==> n < g.nodes
  }

  /** Movement of carrier c's chemical potential at a node. */
  function ChemicalStep(g: Numbering, x: seq<real>, c: nat, n: nat): (r: real)
    requires Valid(g) && |x| == g.size && c < |g.charges| && n < g.nodes
    ensures r >= 0.0
  {
    Abs(x[g.dof(c, n)] - Abs(g.charges[c]) * x[g.dof(g.Potential(), n)])
  }

  /** The largest movement among the first k carriers of a visit. */
  function Largest(g: Numbering, x: seq<real>, w: Visit, k: nat): (r: real)
    requires Valid(g) && |x| == g.size && Fits(g, w) && k <= |w.carriers|
    ensures r >= 0.0 && forall i :: 0 <= i < k ==> ChemicalStep(g, x, w.carriers[i], w.node) <= r
    ensures r == 0.0 || exists i :: 0 <= i < k && ChemicalStep(g, x, w.carriers[i], w.node) == r
  {
    if k == 0 then 0.0
    else
      var m := Largest(g, x, w, k - 1);
      var s := ChemicalStep(g, x, w.carriers[k - 1], w.node);
      if s > m then s else m
  }

  function Excess(g: Numbering, x: seq<real>, w: Visit): (r: real)
    requires Valid(g) && |x| == g.size && Fits(g, w)
    ensures r >= 0.0
  {
    Largest(g, x, w, |w.carriers|)
  }

  /** Factor applied to the unknowns of a visit. */
  function Factor(g: Numbering, x: seq<real>, w: Visit): (f: real)
    requires Valid(g) && |x| == g.size && Fits(g, w)
  {
    var dmax := Excess(g, x, w);
    if dmax > MAX_STEP then MAX_STEP / dmax else 1.0
  }

  /** Unknowns a visit may scale: those of its carriers and the potential. */
  ghost predicate Touched(g: Numbering, w: Visit, d: nat) {
    || d == g.dof(g.Potential(), w.node)
    || exists i :: 0 <= i < |w.carriers| && d == g.dof(w.carriers[i], w.node)
  }

  ghost function Limit(g: Numbering, x: seq<real>, w: Visit): (r: seq<real>)
    requires Valid(g) && |x| == g.size && Fits(g, w)
    ensures |r| == g.size
  {
    seq(g.size, d requires 0 <= d < g.size => if Touched(g, w, d) then Product(Factor(g, x, w), x[d]) else x[d])
  }

  /** The update after a list of visits. */
  ghost function Pass(g: Numbering, x: seq<real>, ws: seq<Visit>): (r: seq<real>)
    requires Valid(g) && |x| == g.size && forall w :: w in ws ==> Fits(g, w)
    ensures |r| == g.size
  {
    if |ws| == 0 then x else Limit(g, Pass(g, x, ws[..|ws| - 1]), ws[|ws| - 1])
  }

  /** The visits of one element and of a list of elements. */
  function VisitsOf(e: Cell): seq<Visit> {
    seq(|e.nodes|, i requires 0 <= i < |e.nodes| => Visit(e.nodes[i], e.carriers))
  }

  function Visits(list: seq<Cell>): seq<Visit> {
    if |list| == 0 then [] else Visits(list[..|list| - 1]) + VisitsOf(list[|list| - 1])
  }

  lemma {:induction false} VisitsFrom(list: seq<Cell>)
    ensures forall w :: w in Visits(list) <==>
                        exists e, i :: e in list && 0 <= i < |e.nodes| && w == Visit(e.nodes[i], e.carriers)
  {
    if |list| > 0 {
      var m, last := list[..|list| - 1], list[|list| - 1];
      assert list == m + [last];
      VisitsFrom(m);
      forall w
        ensures w in Visits(list) <==>
                exists e, i :: e in list && 0 <= i < |e.nodes| && w == Visit(e.nodes[i], e.carriers)
      {
        if w in VisitsOf(last) {
          var i :| 0 <= i < |last.nodes| && VisitsOf(last)[i] == w;
          assert last in list && w == Visit(last.nodes[i], last.carriers);
        }
        if e, i :| e in list && 0 <= i < |e.nodes| && w == Visit(e.nodes[i], e.carriers) {
          if e !in m { assert VisitsOf(last)[i] == w; }
        }
      }
    }
  }

  lemma VisitsFit(g: Numbering, list: seq<Cell>)
    requires Regular(g, list)
    ensures forall w :: w in Visits(list) ==> Fits(g, w)
  {
    VisitsFrom(list);
    forall w | w in Visits(list) ensures Fits(g, w) {
      var e, i :| e in list && 0 <= i < |e.nodes| && w == Visit(e.nodes[i], e.carriers);
      assert e.nodes[i] in e.nodes;
    }
  }

  // ---------------------------------------------------------------------------------------
  // Scaling

  lemma ScaledAbs(f: real, a: real, b: real, q: real)
    requires f >= 0.0
    ensures Abs(Product(f, a) - q * Product(f, b)) == Product(f, Abs(a - q * b))
  {
    var d := a - q * b;
    assert Product(f, a) - q * Product(f, b) == f * d;
    if d >= 0.0 { NonNegative(f, d); } else { NonNegative(f, -d); assert f * -d == -(f * d); }
  }

  lemma QuotientRange(a: real, b: real, q: real)
    requires 0.0 < a < b && q == a / b
    ensures 0.0 < q < 1.0 && Product(q, b) == a
  {
    assert q * b == a;
    if q <= 0.0 { NonNegative(-q, b); }
    assert (q - 1.0) * b == q * b - b;
    if q >= 1.0 { NonNegative(q - 1.0, b); }
  }

  /** A visit within the limit. */
  ghost predicate Quiet(g: Numbering, x: seq<real>, w: Visit)
    requires Valid(g) && |x| == g.size && Fits(g, w)
  {
    forall i :: 0 <= i < |w.carriers| ==> ChemicalStep(g, x, w.carriers[i], w.node) <= MAX_STEP
  }

  lemma FactorRange(g: Numbering, x: seq<real>, w: Visit)
    requires Valid(g) && |x| == g.size && Fits(g, w)
    ensures 0.0 < Factor(g, x, w) <= 1.0
    ensures Factor(g, x, w) == 1.0 <==> Quiet(g, x, w)
    ensures Product(Factor(g, x, w), Excess(g, x, w)) <= MAX_STEP
  {
    var dmax, f := Excess(g, x, w), Factor(g, x, w);
    hide ChemicalStep;
    if dmax > MAX_STEP {
      QuotientRange(MAX_STEP, dmax, f);
    }
  }

  /** A visit within the limit changes nothing. */
  lemma QuietKeeps(g: Numbering, x: seq<real>, w: Visit)
    requires Valid(g) && |x| == g.size && Fits(g, w) && Quiet(g, x, w)
    ensures Limit(g, x, w) == x
  {
    FactorRange(g, x, w);
    hide Factor, Quiet, Touched;
  }

  lemma Scaled(f: real, s: real, top: real)
    requires 0.0 < f <= 1.0 && s >= 0.0
    ensures Product(f, s) <= s
    ensures s <= top ==> Product(f, s) <= Product(f, top)
  {
    assert (1.0 - f) * s >= 0.0;
    if s <= top { assert f * (top - s) >= 0.0; }
  }

  lemma AtUnknown(g: Numbering, x: seq<real>, w: Visit, d: nat)
    requires Valid(g) && |x| == g.size && Fits(g, w) && d < g.size
    ensures Limit(g, x, w)[d] == if Touched(g, w, d) then Product(Factor(g, x, w), x[d]) else x[d]
  {}

  lemma ScaledStep(g: Numbering, x: seq<real>, y: seq<real>, c: nat, n: nat, f: real)
    requires Valid(g) && |x| == |y| == g.size && c < |g.charges| && n < g.nodes && f >= 0.0
    requires y[g.dof(c, n)] == Product(f, x[g.dof(c, n)])
    requires y[g.dof(g.Potential(), n)] == Product(f, x[g.dof(g.Potential(), n)])
    ensures ChemicalStep(g, y, c, n) == Product(f, ChemicalStep(g, x, c, n))
  {
    var a, b, q := x[g.dof(c, n)], x[g.dof(g.Potential(), n)], Abs(g.charges[c]);
    assert y[g.dof(c, n)] == Product(f, a) && y[g.dof(g.Potential(), n)] == Product(f, b);
    ScaledAbs(f, a, b, q);
  }

  /** The step of a carrier looked at is scaled. */
  lemma StepScaled(g: Numbering, x: seq<real>, w: Visit, c: nat)
    requires Valid(g) && |x| == g.size && Fits(g, w) && c in w.carriers
    ensures ChemicalStep(g, Limit(g, x, w), c, w.node) == Product(Factor(g, x, w), ChemicalStep(g, x, c, w.node))
  {
    hide Product, Factor, Quiet, ChemicalStep;
    FactorRange(g, x, w);
    var i :| 0 <= i < |w.carriers| && w.carriers[i] == c;
    AtUnknown(g, x, w, g.dof(g.Potential(), w.node));
    AtUnknown(g, x, w, g.dof(c, w.node));
    ScaledStep(g, x, Limit(g, x, w), c, w.node, Factor(g, x, w));
  }

  lemma Smaller(f: real, a: real)
    requires 0.0 < f <= 1.0
    ensures Abs(Product(f, a)) <= Abs(a)
  {
    if a >= 0.0 {
      NonNegative(f, a);
      NonNegative(1.0 - f, a);
      assert (1.0 - f) * a == a - f * a;
    } else {
      NonNegative(f, -a);
      NonNegative(1.0 - f, -a);
      assert f * a == -(f * -a);
      assert (1.0 - f) * -a == -a + f * a;
    }
  }

  /** No visit makes a neutral carrier move further. */
  lemma NeutralAfter(g: Numbering, x: seq<real>, w: Visit, c: nat)
    requires Valid(g) && |x| == g.size && Fits(g, w) && c < |g.charges| && g.charges[c] == 0.0
    ensures ChemicalStep(g, Limit(g, x, w), c, w.node) <= ChemicalStep(g, x, c, w.node)
  {
    FactorRange(g, x, w);
    var d := g.dof(c, w.node);
    AtUnknown(g, x, w, d);
    NeutralStep(g, x, c, w.node);
    NeutralStep(g, Limit(g, x, w), c, w.node);
    hide Factor, Quiet, Touched, Limit, ChemicalStep;
    Smaller(Factor(g, x, w), x[d]);
    hide Product;
  }

  lemma NeutralStep(g: Numbering, x: seq<real>, c: nat, n: nat)
    requires Valid(g) && |x| == g.size && c < |g.charges| && n < g.nodes && g.charges[c] == 0.0
    ensures ChemicalStep(g, x, c, n) == Abs(x[g.dof(c, n)])
  {
    assert Abs(g.charges[c]) * x[g.dof(g.Potential(), n)] == 0.0;
  }

  /** Other nodes do not notice a visit. */
  lemma Elsewhere(g: Numbering, x: seq<real>, w: Visit, c: nat, n: nat)
    requires Valid(g) && |x| == g.size && Fits(g, w) && c <= |g.charges| && n < g.nodes && n != w.node
    ensures Limit(g, x, w)[g.dof(c, n)] == x[g.dof(c, n)]
  {
    assert !Touched(g, w, g.dof(c, n));
  }

  /** After a visit the limit holds for the carriers looked at. */
  lemma VisitQuiets(g: Numbering, x: seq<real>, w: Visit)
    requires Valid(g) && |x| == g.size && Fits(g, w)
    ensures Quiet(g, Limit(g, x, w), w)
  {
    FactorRange(g, x, w);
    var y, f, top := Limit(g, x, w), Factor(g, x, w), Excess(g, x, w);
    forall i | 0 <= i < |w.carriers| ensures ChemicalStep(g, y, w.carriers[i], w.node) <= MAX_STEP {
      var c := w.carriers[i];
      StepScaled(g, x, w, c);
      Scaled(f, ChemicalStep(g, x, c, w.node), top);
      hide ChemicalStep, Factor, Product, Limit;
    }
  }

  // ---------------------------------------------------------------------------------------
  // The loops

  method CarrierStep(g: Numbering, dx: array<real>, c: nat, n: nat) returns (chempot: real)
    requires Valid(g) && dx.Length == g.size && n < g.nodes && c < |g.charges|
    ensures chempot == ChemicalStep(g, dx[..], c, n)
  {
    var chrg := g.charges[c];
    if chrg != 0.0 {
      chrg := Abs(chrg);
    }
    chempot := Abs(dx[g.dof(c, n)] - chrg * dx[g.dof(g.Potential(), n)]);
  }

  method LargestStep(g: Numbering, dx: array<real>, w: Visit) returns (dmax: real)
    requires Valid(g) && dx.Length == g.size && Fits(g, w)
    ensures dmax == Excess(g, dx[..], w)
  {
    hide Valid, ChemicalStep;
    ghost var x := dx[..];
    dmax := 0.0;
    for k := 0 to |w.carriers|
      invariant dmax == Largest(g, x, w, k)
    {
      var chempot := CarrierStep(g, dx, w.carriers[k], w.node);
      if chempot > dmax {
        dmax := chempot;
      }
    }
  }

  lemma QuotientOrder(a: real, x: real, b: real)
    requires b > 0.0
    ensures a * x / b == Product(a / b, x)
  {
    var q := a / b;
    assert q * b == a;
    assert (q * x) * b == a * x;
  }

  method ScaleOne(dx: array<real>, d: nat, dmax: real)
    requires d < dx.Length && dmax > 0.0
    modifies dx
    ensures dx[..] == old(dx[..])[d := Product(MAX_STEP / dmax, old(dx[d]))]
  {
    QuotientOrder(MAX_STEP, dx[d], dmax);
    dx[d] := MAX_STEP * dx[d] / dmax;
  }

  ghost predicate TouchedBefore(g: Numbering, w: Visit, k: nat, d: nat)
    requires k <= |w.carriers|
  {
    || d == g.dof(g.Potential(), w.node)
    || exists i :: 0 <= i < k && d == g.dof(w.carriers[i], w.node)
  }

  lemma TouchedNext(g: Numbering, w: Visit, k: nat, d: nat)
    requires Valid(g) && Fits(g, w) && k < |w.carriers|
    ensures TouchedBefore(g, w, k + 1, d) <==> TouchedBefore(g, w, k, d) || d == g.dof(w.carriers[k], w.node)
    ensures !TouchedBefore(g, w, k, g.dof(w.carriers[k], w.node))
  {}

  /** The potential and the carriers of a visit are scaled. */
  method ScaleVisit(g: Numbering, dx: array<real>, w: Visit, dmax: real)
    requires Valid(g) && dx.Length == g.size && Fits(g, w) && dmax > 0.0
    modifies dx
    ensures forall d :: 0 <= d < g.size ==>
              dx[d] == if Touched(g, w, d) then Product(MAX_STEP / dmax, old(dx[d])) else old(dx[d])
  {
    hide Product;
    ghost var f := MAX_STEP / dmax;
    ScaleOne(dx, g.dof(g.Potential(), w.node), dmax);
    for k := 0 to |w.carriers|
      invariant forall d :: 0 <= d < g.size ==>
                  dx[d] == if TouchedBefore(g, w, k, d) then Product(f, old(dx[d])) else old(dx[d])
    {
      forall d: nat { TouchedNext(g, w, k, d); }
      hide TouchedBefore;
      ScaleOne(dx, g.dof(w.carriers[k], w.node), dmax);
    }
  }

  /** The unknowns of one node are scaled where the limit is passed. */
  method LimitVisit(g: Numbering, dx: array<real>, w: Visit)
    requires Valid(g) && dx.Length == g.size && Fits(g, w)
    modifies dx
    ensures dx[..] == Limit(g, old(dx[..]), w)
  {
    hide Excess, Valid, Product, Touched;
    ghost var was := dx[..];
    var dmax := LargestStep(g, dx, w);
    if dmax > MAX_STEP {
      ScaleVisit(g, dx, w, dmax);
    } else {
      OneTimes(was);
    }
  }

  lemma OneTimes(x: seq<real>)
    ensures forall i :: 0 <= i < |x| ==> Product(1.0, x[i]) == x[i]
  {}

  /** The nodes of one element. */
  method LimitElement(g: Numbering, e: Cell, dx: array<real>)
    requires Valid(g) && dx.Length == g.size && forall w :: w in VisitsOf(e) ==> Fits(g, w)
    modifies dx
    ensures dx[..] == Pass(g, old(dx[..]), VisitsOf(e))
  {
    hide Limit, Fits;
    ghost var was, ws := dx[..], VisitsOf(e);
    for i := 0 to |e.nodes|
      invariant dx[..] == Pass(g, was, ws[..i])
    {
      assert ws[..i + 1][..i] == ws[..i] && ws[i] in ws;
      LimitVisit(g, dx, Visit(e.nodes[i], e.carriers));
    }
    assert ws[..|e.nodes|] == ws;
  }

  /** The update after a pass over the elements. */
  method LimitStep(g: Numbering, list: seq<Cell>, dx: array<real>)
    requires Valid(g) && Regular(g, list) && dx.Length == g.size
    modifies dx
    ensures (forall w :: w in Visits(list) ==> Fits(g, w)) && dx[..] == Pass(g, old(dx[..]), Visits(list))
  {
    hide Limit, Fits, VisitsOf, Pass;
    ghost var was := dx[..];
    NoPass(g, was);
    for e := 0 to |list|
      invariant (forall w :: w in Visits(list[..e]) ==> Fits(g, w)) && dx[..] == Pass(g, was, Visits(list[..e]))
    {
      assert list[..e + 1][..e] == list[..e];
      VisitsFit(g, list[..e + 1]);
      PassTwice(g, was, Visits(list[..e]), VisitsOf(list[e]));
      LimitElement(g, list[e], dx);
    }
    assert list[..|list|] == list;
  }

  lemma NoPass(g: Numbering, x: seq<real>)
    requires Valid(g) && |x| == g.size
    ensures Pass(g, x, []) == x
  {}

  lemma {:induction false} PassTwice(g: Numbering, x: seq<real>, a: seq<Visit>, b: seq<Visit>)
    requires Valid(g) && |x| == g.size && forall w :: w in a + b ==> Fits(g, w)
    ensures Pass(g, x, a + b) == Pass(g, Pass(g, x, a), b)
  {
    hide Limit, Fits;
    if |b| == 0 {
      assert a + b == a;
    } else {
      assert (a + b)[..|a + b| - 1] == a + b[..|b| - 1];
      PassTwice(g, x, a, b[..|b| - 1]);
    }
  }

  // ---------------------------------------------------------------------------------------
  // When the limit holds after a pass

  ghost predicate Over(mesh: seq<Cell>, list: seq<Cell>) {
    forall e :: e in list ==> e in mesh
  }

  /** A charged carrier of a is one of b. */
  ghost predicate ChargedIn(g: Numbering, a: seq<nat>, b: seq<nat>) {
    forall c :: c in a && c < |g.charges| && g.charges[c] != 0.0 ==> c in b
  }

  ghost predicate Within(a: seq<nat>, b: seq<nat>) {
    forall c :: c in a ==> c in b
  }

  /** Of two materials at a node one holds all (charged) carriers of the other. */
  ghost predicate Comparable(g: Numbering, mesh: seq<Cell>) {
    forall e, f, n: nat :: e in mesh && f in mesh && n in e.nodes && n in f.nodes ==>
      ChargedIn(g, e.carriers, f.carriers) || Within(f.carriers, e.carriers)
  }

  /** No chemical potential the elements of the list hold moves by more than the limit. */
  ghost predicate Bounded(g: Numbering, x: seq<real>, list: seq<Cell>)
    requires Valid(g) && Regular(g, list) && |x| == g.size
  {
    forall e, n, c :: e in list && n in e.nodes && c in e.carriers ==> ChemicalStep(g, x, c, n) <= MAX_STEP
  }

  /** After every pass over elements of the mesh, in any number and order, the limit holds. */
  ghost predicate AlwaysBounded(g: Numbering, mesh: seq<Cell>)
    requires Valid(g) && Regular(g, mesh)
  {
    forall list: seq<Cell>, x: seq<real> :: Over(mesh, list) && |x| == g.size ==>
      Bounded(g, After(g, mesh, list, x), list)
  }

  /** The update after one pass over a list of elements of the mesh. */
  ghost function After(g: Numbering, mesh: seq<Cell>, list: seq<Cell>, x: seq<real>): (r: seq<real>)
    requires Valid(g) && Regular(g, mesh) && Over(mesh, list) && |x| == g.size
    ensures |r| == g.size
  {
    VisitsFit(g, list);
    Pass(g, x, Visits(list))
  }

  /** Two visits that cannot undo each other's work. */
  ghost predicate Friendly(g: Numbering, v: Visit, w: Visit) {
    v.node == w.node ==> ChargedIn(g, v.carriers, w.carriers) || Within(w.carriers, v.carriers)
  }

  /** A visit that is within the limit stays so when a friendly one follows. */
  lemma StaysQuiet(g: Numbering, x: seq<real>, v: Visit, w: Visit)
    requires Valid(g) && |x| == g.size && Fits(g, v) && Fits(g, w) && Friendly(g, v, w) && Quiet(g, x, v)
    ensures Quiet(g, Limit(g, x, w), v)
  {
    hide Limit, Factor, ChemicalStep, Excess, Valid;
    FactorRange(g, x, w);
    if Quiet(g, x, w) {
      QuietKeeps(g, x, w);
    } else {
      forall i | 0 <= i < |v.carriers| ensures ChemicalStep(g, Limit(g, x, w), v.carriers[i], v.node) <= MAX_STEP {
        var c := v.carriers[i];
        if v.node != w.node {
          StepElsewhere(g, x, w, c, v.node);
        } else if g.charges[c] == 0.0 {
          NeutralAfter(g, x, w, c);
        } else {
          if Within(w.carriers, v.carriers) { QuietPart(g, x, v, w); }
          StepScaled(g, x, w, c);
          Scaled(Factor(g, x, w), ChemicalStep(g, x, c, w.node), MAX_STEP);
        }
      }
    }
  }

  lemma QuietPart(g: Numbering, x: seq<real>, v: Visit, w: Visit)
    requires Valid(g) && |x| == g.size && Fits(g, v) && Fits(g, w) && v.node == w.node && Quiet(g, x, v)
    requires Within(w.carriers, v.carriers)
    ensures Quiet(g, x, w)
  {
    hide ChemicalStep;
    forall i | 0 <= i < |w.carriers| ensures ChemicalStep(g, x, w.carriers[i], w.node) <= MAX_STEP {
      assert w.carriers[i] in v.carriers;
      var j :| 0 <= j < |v.carriers| && v.carriers[j] == w.carriers[i];
    }
  }

  lemma StepElsewhere(g: Numbering, x: seq<real>, w: Visit, c: nat, n: nat)
    requires Valid(g) && |x| == g.size && Fits(g, w) && c < |g.charges| && n < g.nodes && n != w.node
    ensures ChemicalStep(g, Limit(g, x, w), c, n) == ChemicalStep(g, x, c, n)
  {
    Elsewhere(g, x, w, c, n);
    Elsewhere(g, x, w, |g.charges|, n);
  }

  lemma {:induction false} PassQuiets(g: Numbering, x: seq<real>, ws: seq<Visit>)
    requires Valid(g) && |x| == g.size && (forall w :: w in ws ==> Fits(g, w))
    requires forall v, w :: v in ws && w in ws ==> Friendly(g, v, w)
    ensures forall v :: v in ws ==> Quiet(g, Pass(g, x, ws), v)
  {
    hide Limit, Quiet, Friendly, Fits;
    if |ws| > 0 {
      var m, w := ws[..|ws| - 1], ws[|ws| - 1];
      assert ws == m + [w];
      PassQuiets(g, x, m);
      VisitQuiets(g, Pass(g, x, m), w);
      forall v | v in m ensures Quiet(g, Pass(g, x, ws), v) {
        StaysQuiet(g, Pass(g, x, m), v, w);
      }
    }
  }

  /** The limit holds after the pass if and only if all visits are quiet. */
  lemma BoundedByVisits(g: Numbering, x: seq<real>, list: seq<Cell>)
    requires Valid(g) && Regular(g, list) && |x| == g.size
    ensures forall w :: w in Visits(list) ==> Fits(g, w)
    ensures Bounded(g, x, list) <==> forall w :: w in Visits(list) ==> Quiet(g, x, w)
  {
    hide ChemicalStep;
    VisitsFit(g, list);
    VisitsFrom(list);
    if forall w :: w in Visits(list) ==> Quiet(g, x, w) {
      forall e, n, c | e in list && n in e.nodes && c in e.carriers ensures ChemicalStep(g, x, c, n) <= MAX_STEP {
        var i :| 0 <= i < |e.nodes| && e.nodes[i] == n;
        var j :| 0 <= j < |e.carriers| && e.carriers[j] == c;
        assert Visit(e.nodes[i], e.carriers) in Visits(list);
        assert Quiet(g, x, Visit(e.nodes[i], e.carriers));
      }
    }
    if Bounded(g, x, list) {
      forall w | w in Visits(list) ensures Quiet(g, x, w) {
        var e, i :| e in list && 0 <= i < |e.nodes| && w == Visit(e.nodes[i], e.carriers);
        assert e.nodes[i] in e.nodes;
      }
    }
  }

  lemma ComparableBounds(g: Numbering, mesh: seq<Cell>, list: seq<Cell>, x: seq<real>)
    requires Valid(g) && Regular(g, mesh) && Comparable(g, mesh) && Over(mesh, list) && |x| == g.size
    ensures Bounded(g, After(g, mesh, list, x), list)
  {
    hide Quiet, Bounded, Fits, Within, ChargedIn;
    VisitsFit(g, list);
    VisitsFrom(list);
    var ws := Visits(list);
    forall v, w | v in ws && w in ws ensures Friendly(g, v, w) {
      var e, i :| e in list && 0 <= i < |e.nodes| && v == Visit(e.nodes[i], e.carriers);
      var f, j :| f in list && 0 <= j < |f.nodes| && w == Visit(f.nodes[j], f.carriers);
      assert e.nodes[i] in e.nodes && f.nodes[j] in f.nodes;
    }
    PassQuiets(g, x, ws);
    BoundedByVisits(g, After(g, mesh, list, x), list);
  }

  // ---------------------------------------------------------------------------------------
  // Updates for which it does not hold

  /** At node n the potential moves by d and carrier c by k(c) more than it; other nodes rest. */
  ghost predicate MovesAlong(g: Numbering, x: seq<real>, n: nat, d: real, k: nat -> real)
    requires Valid(g) && |x| == g.size && n < g.nodes
  {
    && x[g.dof(g.Potential(), n)] == d
    && (forall c: nat :: c < |g.charges| ==> x[g.dof(c, n)] == Abs(g.charges[c]) * d + k(c))
    && forall c: nat, m: nat :: c <= |g.charges| && m < g.nodes && m != n ==> x[g.dof(c, m)] == 0.0
  }

  ghost function MoveOf(g: Numbering, n: nat, d: real, k: nat -> real, i: nat): real
    requires Valid(g) && n < g.nodes
  {
    if i == g.dof(g.Potential(), n) then d
    else if c: nat :| c < |g.charges| && i == g.dof(c, n) then Abs(g.charges[c]) * d + k(c)
    else 0.0
  }

  lemma Moved(g: Numbering, n: nat, d: real, k: nat -> real) returns (x: seq<real>)
    requires Valid(g) && n < g.nodes
    ensures |x| == g.size && MovesAlong(g, x, n, d, k)
  {
    x := seq(g.size, i requires 0 <= i < g.size => MoveOf(g, n, d, k, i));
  }

  lemma MovedStep(g: Numbering, x: seq<real>, n: nat, d: real, k: nat -> real, c: nat, m: nat)
    requires Valid(g) && |x| == g.size && n < g.nodes && MovesAlong(g, x, n, d, k) && c < |g.charges| && m < g.nodes
    ensures ChemicalStep(g, x, c, m) == if m == n then Abs(k(c)) else 0.0
  {}

  lemma {:induction false} QuietPass(g: Numbering, x: seq<real>, ws: seq<Visit>)
    requires Valid(g) && |x| == g.size && forall w :: w in ws ==> Fits(g, w) && Quiet(g, x, w)
    ensures Pass(g, x, ws) == x
  {
    hide Quiet, Limit, Fits;
    if |ws| > 0 {
      QuietPass(g, x, ws[..|ws| - 1]);
      QuietKeeps(g, x, ws[|ws| - 1]);
    }
  }

  /** If all visits but one kind are quiet, before and after it, that one decides. */
  lemma {:induction false} LoudPass(g: Numbering, x: seq<real>, ws: seq<Visit>, w: Visit)
    requires Valid(g) && |x| == g.size && Fits(g, w)
    requires forall v :: v in ws ==> Fits(g, v) && (v == w || (v.node != w.node && Quiet(g, x, v)))
    ensures Pass(g, x, ws) == if w in ws then Limit(g, x, w) else x
  {
    hide Quiet, Limit, Fits;
    if |ws| > 0 {
      var m, v := ws[..|ws| - 1], ws[|ws| - 1];
      assert ws == m + [v];
      LoudPass(g, x, m, w);
      if v == w {
        if w in m {
          VisitQuiets(g, x, w);
          QuietKeeps(g, Limit(g, x, w), w);
        }
      } else {
        OtherQuiet(g, x, w, v);
        QuietKeeps(g, Pass(g, x, m), v);
      }
    }
  }

  lemma OtherQuiet(g: Numbering, x: seq<real>, w: Visit, v: Visit)
    requires Valid(g) && |x| == g.size && Fits(g, w) && Fits(g, v) && v.node != w.node && Quiet(g, x, v)
    ensures Quiet(g, Limit(g, x, w), v)
  {
    forall i | 0 <= i < |v.carriers| ensures ChemicalStep(g, Limit(g, x, w), v.carriers[i], v.node) <= MAX_STEP {
      StepElsewhere(g, x, w, v.carriers[i], v.node);
    }
  }

  lemma PairVisits(e: Cell, f: Cell)
    ensures Visits([e, f]) == VisitsOf(e) + VisitsOf(f)
  {
    assert [e, f][..1] == [e];
    assert [e][..0] == [];
    assert Visits([e]) == Visits([]) + VisitsOf(e) == VisitsOf(e);
  }

  lemma VisitsOfCell(g: Numbering, mesh: seq<Cell>, e: Cell)
    requires Regular(g, mesh) && e in mesh
    ensures forall v :: v in VisitsOf(e) ==> Fits(g, v) && v.carriers == e.carriers && v.node in e.nodes
    ensures forall n :: n in e.nodes ==> Visit(n, e.carriers) in VisitsOf(e)
  {
    forall v | v in VisitsOf(e) ensures Fits(g, v) && v.carriers == e.carriers && v.node in e.nodes {
      var i :| 0 <= i < |VisitsOf(e)| && VisitsOf(e)[i] == v;
      assert e.nodes[i] in e.nodes;
    }
    forall n | n in e.nodes ensures Visit(n, e.carriers) in VisitsOf(e) {
      var i :| 0 <= i < |e.nodes| && e.nodes[i] == n;
      assert VisitsOf(e)[i] == Visit(n, e.carriers);
    }
  }

  /** Carriers that move exactly along with the potential, and carriers elsewhere, are quiet. */
  lemma MovedQuiet(g: Numbering, x: seq<real>, n: nat, d: real, k: nat -> real, v: Visit)
    requires Valid(g) && |x| == g.size && n < g.nodes && MovesAlong(g, x, n, d, k) && Fits(g, v)
    requires v.node == n ==> forall c :: c in v.carriers ==> Abs(k(c)) <= MAX_STEP
    ensures Quiet(g, x, v)
  {
    forall i | 0 <= i < |v.carriers| ensures ChemicalStep(g, x, v.carriers[i], v.node) <= MAX_STEP {
      MovedStep(g, x, n, d, k, v.carriers[i], v.node);
    }
  }

  /** If one carrier moves by twice the limit and no other carrier more, everything is halved. */
  lemma HalfFactor(g: Numbering, x: seq<real>, w: Visit, b: nat)
    requires Valid(g) && |x| == g.size && Fits(g, w) && b in w.carriers
    requires ChemicalStep(g, x, b, w.node) == 20.0
    requires forall i :: 0 <= i < |w.carriers| ==> ChemicalStep(g, x, w.carriers[i], w.node) <= 20.0
    ensures Factor(g, x, w) == 0.5
  {
    var i :| 0 <= i < |w.carriers| && w.carriers[i] == b;
    hide ChemicalStep;
    assert Excess(g, x, w) == 20.0;
  }

  ghost function OneCarrier(b: nat, s: real): nat -> real {
    (c: nat) => if c == b then s else 0.0
  }

  /** One element holds the charged carrier a but not b, the next one b but not a: scaling the
      potential for b pulls it away from a. */
  lemma LimitPassedAgain(g: Numbering, mesh: seq<Cell>, e: Cell, f: Cell, n: nat, a: nat, b: nat)
    returns (x: seq<real>)
    requires Valid(g) && Regular(g, mesh) && e in mesh && f in mesh && n in e.nodes && n in f.nodes
    requires a in e.carriers && a !in f.carriers && g.charges[a] != 0.0
    requires b in f.carriers && b !in e.carriers
    ensures |x| == g.size && ChemicalStep(g, After(g, mesh, [e, f], x), a, n) == 20.0
    ensures !Bounded(g, After(g, mesh, [e, f], x), [e, f])
  {
    hide MovesAlong, Limit, Factor, Quiet, Touched, VisitsOf, Visits, Pass, Valid;
    var q := Abs(g.charges[a]);
    var d := 40.0 / q;
    var k, w := OneCarrier(b, 20.0), Visit(n, f.carriers);
    x := Moved(g, n, d, k);
    VisitsOfCell(g, mesh, e);
    VisitsOfCell(g, mesh, f);
    forall v | v in VisitsOf(e) ensures Quiet(g, x, v) { MovedQuiet(g, x, n, d, k, v); }
    forall v | v in VisitsOf(f) && v.node != n ensures Quiet(g, x, v) { MovedQuiet(g, x, n, d, k, v); }
    FirstQuiet(g, mesh, e, f, n, x);
    HalfMoved(g, x, w, b, d, k);
    LeftBehind(g, x, w, a, q, d, k);
  }

  lemma HalfMoved(g: Numbering, x: seq<real>, w: Visit, b: nat, d: real, k: nat -> real)
    requires Valid(g) && |x| == g.size && Fits(g, w) && b in w.carriers && k == OneCarrier(b, 20.0)
    requires MovesAlong(g, x, w.node, d, k)
    ensures Factor(g, x, w) == 0.5
  {
    hide MovesAlong, Factor, ChemicalStep;
    forall c | c in w.carriers ensures ChemicalStep(g, x, c, w.node) == Abs(k(c)) {
      MovedStep(g, x, w.node, d, k, c, w.node);
    }
    HalfFactor(g, x, w, b);
  }

  /** A pass over two elements where only the second finds something to scale, at node n. */
  lemma FirstQuiet(g: Numbering, mesh: seq<Cell>, e: Cell, f: Cell, n: nat, x: seq<real>)
    requires Valid(g) && Regular(g, mesh) && e in mesh && f in mesh && n in f.nodes && |x| == g.size
    requires forall v :: v in VisitsOf(e) ==> Fits(g, v) && Quiet(g, x, v)
    requires forall v :: v in VisitsOf(f) && v.node != n ==> Fits(g, v) && Quiet(g, x, v)
    ensures Fits(g, Visit(n, f.carriers)) && After(g, mesh, [e, f], x) == Limit(g, x, Visit(n, f.carriers))
  {
    hide Limit, Quiet, Fits, VisitsOf, Visits;
    VisitsOfCell(g, mesh, f);
    PairVisits(e, f);
    VisitsFit(g, [e, f]);
    PassTwice(g, x, VisitsOf(e), VisitsOf(f));
    QuietPass(g, x, VisitsOf(e));
    LoudPass(g, x, VisitsOf(f), Visit(n, f.carriers));
  }

  lemma LeftBehind(g: Numbering, x: seq<real>, w: Visit, a: nat, q: real, d: real, k: nat -> real)
    requires Valid(g) && |x| == g.size && Fits(g, w) && MovesAlong(g, x, w.node, d, k)
    requires a < |g.charges| && a !in w.carriers && q == Abs(g.charges[a]) && q * d == 40.0 && k(a) == 0.0
    requires Factor(g, x, w) == 0.5
    ensures ChemicalStep(g, Limit(g, x, w), a, w.node) == 20.0
  {
    hide Factor;
    var u, i, y := g.dof(g.Potential(), w.node), g.dof(a, w.node), Limit(g, x, w);
    assert Touched(g, w, u) && !Touched(g, w, i);
    AtUnknown(g, x, w, u);
    AtUnknown(g, x, w, i);
    assert y[u] == 0.5 * d && y[i] == 40.0;
    assert q * (0.5 * d) == 20.0;
  }

  /** The limit holds after every pass if and only if at each node, of any two materials, one
      holds all the (charged) carriers of the other. */
  lemma StepsBounded(g: Numbering, mesh: seq<Cell>)
    requires Valid(g) && Regular(g, mesh)
    ensures AlwaysBounded(g, mesh) <==> Comparable(g, mesh)
  {
    hide Bounded, Valid;
    if Comparable(g, mesh) {
      forall list: seq<Cell>, x: seq<real> | Over(mesh, list) && |x| == g.size
        ensures Bounded(g, After(g, mesh, list, x), list)
      {
        ComparableBounds(g, mesh, list, x);
      }
    } else {
      var e, f, n: nat :| e in mesh && f in mesh && n in e.nodes && n in f.nodes
        && !(ChargedIn(g, e.carriers, f.carriers) || Within(f.carriers, e.carriers));
      var a :| a in e.carriers && a < |g.charges| && g.charges[a] != 0.0 && a !in f.carriers;
      var b :| b in f.carriers && b !in e.carriers;
      var x := LimitPassedAgain(g, mesh, e, f, n, a, b);
      assert Over(mesh, [e, f]);
    }
  }

  // ---------------------------------------------------------------------------------------
  // A second pass

  /** Every unknown goes part of the way to zero. */
  ghost predicate Shrunk(x: seq<real>, y: seq<real>) {
    && |x| == |y|
    && forall d :: 0 <= d < |x| ==> 0.0 <= y[d] <= x[d] || x[d] <= y[d] <= 0.0
  }

  lemma ShrunkBy(f: real, a: real)
    requires 0.0 < f <= 1.0
    ensures 0.0 <= Product(f, a) <= a || a <= Product(f, a) <= 0.0
    ensures f < 1.0 && Product(f, a) == a ==> a == 0.0
  {
    assert (1.0 - f) * a == a - f * a;
    if a >= 0.0 {
      NonNegative(f, a);
      NonNegative(1.0 - f, a);
    } else {
      NonNegative(f, -a);
      NonNegative(1.0 - f, -a);
      assert f * -a == -(f * a) && (1.0 - f) * -a == -((1.0 - f) * a);
    }
  }

  lemma LimitShrinks(g: Numbering, x: seq<real>, w: Visit)
    requires Valid(g) && |x| == g.size && Fits(g, w)
    ensures Shrunk(x, Limit(g, x, w))
  {
    FactorRange(g, x, w);
    var y, f := Limit(g, x, w), Factor(g, x, w);
    forall d | 0 <= d < |x| ensures 0.0 <= y[d] <= x[d] || x[d] <= y[d] <= 0.0 {
      AtUnknown(g, x, w, d);
      ShrunkBy(f, x[d]);
    }
  }

  lemma {:induction false} PassShrinks(g: Numbering, x: seq<real>, ws: seq<Visit>)
    requires Valid(g) && |x| == g.size && forall w :: w in ws ==> Fits(g, w)
    ensures Shrunk(x, Pass(g, x, ws))
  {
    hide Limit, Fits;
    if |ws| > 0 {
      PassShrinks(g, x, ws[..|ws| - 1]);
      LimitShrinks(g, Pass(g, x, ws[..|ws| - 1]), ws[|ws| - 1]);
    }
  }

  /** A visit that changes nothing was within the limit. */
  lemma KeptIsQuiet(g: Numbering, x: seq<real>, w: Visit)
    requires Valid(g) && |x| == g.size && Fits(g, w) && Limit(g, x, w) == x
    ensures Quiet(g, x, w)
  {
    FactorRange(g, x, w);
    hide ChemicalStep, Limit, Factor;
    var f := Factor(g, x, w);
    if f < 1.0 {
      var u := g.dof(g.Potential(), w.node);
      AtUnknown(g, x, w, u);
      ShrunkBy(f, x[u]);
      forall i | 0 <= i < |w.carriers| ensures ChemicalStep(g, x, w.carriers[i], w.node) <= MAX_STEP {
        var c := w.carriers[i];
        AtUnknown(g, x, w, g.dof(c, w.node));
        ShrunkBy(f, x[g.dof(c, w.node)]);
        AtRest(g, x, c, w.node);
      }
    }
  }

  lemma AtRest(g: Numbering, x: seq<real>, c: nat, n: nat)
    requires Valid(g) && |x| == g.size && c < |g.charges| && n < g.nodes
    requires x[g.dof(g.Potential(), n)] == x[g.dof(c, n)] == 0.0
    ensures ChemicalStep(g, x, c, n) == 0.0
  {
    assert Abs(g.charges[c]) * 0.0 == 0.0;
  }

  /** A pass leaves an update alone if and only if the update is within the limit at every visit. */
  lemma {:induction false} PassIdle(g: Numbering, x: seq<real>, ws: seq<Visit>)
    requires Valid(g) && |x| == g.size && forall w :: w in ws ==> Fits(g, w)
    ensures Pass(g, x, ws) == x <==> forall w :: w in ws ==> Quiet(g, x, w)
  {
    hide Limit, Fits, Quiet;
    if forall w :: w in ws ==> Quiet(g, x, w) { QuietPass(g, x, ws); }
    if Pass(g, x, ws) == x && |ws| > 0 {
      var m, w := ws[..|ws| - 1], ws[|ws| - 1];
      assert ws == m + [w];
      PassShrinks(g, x, m);
      LimitShrinks(g, Pass(g, x, m), w);
      assert Pass(g, x, m) == x;
      PassIdle(g, x, m);
      KeptIsQuiet(g, x, w);
    }
  }

  ghost predicate AlwaysIdle(g: Numbering, mesh: seq<Cell>)
    requires Valid(g) && Regular(g, mesh)
  {
    forall list: seq<Cell>, x: seq<real> :: Over(mesh, list) && |x| == g.size ==>
      After(g, mesh, list, After(g, mesh, list, x)) == After(g, mesh, list, x)
  }

  /** A second pass over the same elements changes nothing, if and only if the materials at each
      node are comparable. */
  lemma SecondPassIdle(g: Numbering, mesh: seq<Cell>)
    requires Valid(g) && Regular(g, mesh)
    ensures AlwaysIdle(g, mesh) <==> Comparable(g, mesh)
  {
    hide Bounded, Valid, Quiet, Fits, Pass, Comparable;
    StepsBounded(g, mesh);
    forall list: seq<Cell>, x: seq<real> | Over(mesh, list) && |x| == g.size
      ensures After(g, mesh, list, After(g, mesh, list, x)) == After(g, mesh, list, x)
          <==> Bounded(g, After(g, mesh, list, x), list)
    {
      var y := After(g, mesh, list, x);
      BoundedByVisits(g, y, list);
      PassIdle(g, y, Visits(list));
    }
  }

  // ---------------------------------------------------------------------------------------
  // The direction of an update

  /** The potential and all carriers a list of elements holds at node n are scaled by one factor. */
  ghost predicate OneFactor(g: Numbering, list: seq<Cell>, was: seq<real>, now: seq<real>, n: nat)
    requires Valid(g) && Regular(g, list) && |was| == |now| == g.size && n < g.nodes
  {
    exists f: real :: ScaledBy(g, list, was, now, n, f)
  }

  ghost predicate ScaledBy(g: Numbering, list: seq<Cell>, was: seq<real>, now: seq<real>, n: nat, f: real)
    requires Valid(g) && Regular(g, list) && |was| == |now| == g.size && n < g.nodes
  {
    && 0.0 < f <= 1.0
    && now[g.dof(g.Potential(), n)] == Product(f, was[g.dof(g.Potential(), n)])
    && forall e, c :: e in list && n in e.nodes && c in e.carriers ==>
         now[g.dof(c, n)] == Product(f, was[g.dof(c, n)])
  }

  /** The direction of every node's update is kept by every pass. */
  ghost predicate AlwaysStraight(g: Numbering, mesh: seq<Cell>)
    requires Valid(g) && Regular(g, mesh)
  {
    forall list: seq<Cell>, x: seq<real>, n: nat :: Over(mesh, list) && |x| == g.size && n < g.nodes ==>
      OneFactor(g, list, x, After(g, mesh, list, x), n)
  }

  /** All materials at a node that hold any carriers hold the same ones. */
  ghost predicate Uniform(mesh: seq<Cell>) {
    forall e, f, n: nat :: e in mesh && f in mesh && n in e.nodes && n in f.nodes ==>
      e.carriers == [] || Within(f.carriers, e.carriers)
  }

  lemma ProductOfFactors(f: real, h: real, a: real)
    requires 0.0 < f <= 1.0 && 0.0 < h <= 1.0
    ensures 0.0 < Product(h, f) <= 1.0 && Product(Product(h, f), a) == Product(h, Product(f, a))
  {
    Positive(h, f);
    NonNegative(1.0 - h, f);
    assert (1.0 - h) * f == f - h * f;
    assert (h * f) * a == h * (f * a);
  }

  /** The factor of a visit at its own node, one elsewhere and for materials without carriers. */
  lemma VisitScales(g: Numbering, list: seq<Cell>, x: seq<real>, w: Visit, n: nat) returns (f: real)
    requires Valid(g) && Regular(g, list) && |x| == g.size && Fits(g, w) && n < g.nodes
    requires w.node == n ==>
               w.carriers == [] || forall e :: e in list && n in e.nodes ==> Within(e.carriers, w.carriers)
    ensures ScaledBy(g, list, x, Limit(g, x, w), n, f)
  {
    hide Limit, Quiet, Touched, Factor;
    FactorRange(g, x, w);
    f := if w.node == n then Factor(g, x, w) else 1.0;
    OneTimes(x);
    var y := Limit(g, x, w);
    forall c: nat | c <= |g.charges| && w.node != n ensures y[g.dof(c, n)] == x[g.dof(c, n)] {
      Elsewhere(g, x, w, c, n);
    }
    if w.node == n {
      PotentialScaled(g, x, w);
      if w.carriers == [] {
        assert Quiet(g, x, w) by { NothingLoud(g, x, w); }
        QuietKeeps(g, x, w);
      } else {
        forall c | c in w.carriers ensures y[g.dof(c, n)] == Product(f, x[g.dof(c, n)]) { CarrierScaled(g, x, w, c); }
      }
    }
    hide Product;
  }

  lemma NothingLoud(g: Numbering, x: seq<real>, w: Visit)
    requires Valid(g) && |x| == g.size && Fits(g, w) && w.carriers == []
    ensures Quiet(g, x, w)
  {}

  lemma PotentialScaled(g: Numbering, x: seq<real>, w: Visit)
    requires Valid(g) && |x| == g.size && Fits(g, w)
    ensures var u := g.dof(g.Potential(), w.node); Limit(g, x, w)[u] == Product(Factor(g, x, w), x[u])
  {}

  lemma CarrierScaled(g: Numbering, x: seq<real>, w: Visit, c: nat)
    requires Valid(g) && |x| == g.size && Fits(g, w) && c in w.carriers
    ensures var d := g.dof(c, w.node); Limit(g, x, w)[d] == Product(Factor(g, x, w), x[d])
  {
    var i :| 0 <= i < |w.carriers| && w.carriers[i] == c;
    assert Touched(g, w, g.dof(c, w.node));
    AtUnknown(g, x, w, g.dof(c, w.node));
  }

  lemma ScaledTwice(g: Numbering, list: seq<Cell>, x: seq<real>, y: seq<real>, z: seq<real>, n: nat, f: real, h: real)
    requires Valid(g) && Regular(g, list) && |x| == |y| == |z| == g.size && n < g.nodes
    requires ScaledBy(g, list, x, y, n, f) && ScaledBy(g, list, y, z, n, h)
    ensures ScaledBy(g, list, x, z, n, Product(h, f))
  {
    forall a: real { ProductOfFactors(f, h, a); }
    hide Product;
  }

  lemma {:induction false} PassScales(g: Numbering, list: seq<Cell>, x: seq<real>, ws: seq<Visit>, n: nat)
    returns (f: real)
    requires Valid(g) && Regular(g, list) && |x| == g.size && n < g.nodes && forall w :: w in ws ==> Fits(g, w)
    requires forall w, e :: w in ws && e in list && w.node == n && n in e.nodes ==>
               w.carriers == [] || Within(e.carriers, w.carriers)
    ensures ScaledBy(g, list, x, Pass(g, x, ws), n, f)
  {
    hide ScaledBy, Limit, Fits, Within, Regular, Valid;
    if |ws| == 0 {
      f := 1.0;
      NotScaled(g, list, x, n);
    } else {
      var m, w := ws[..|ws| - 1], ws[|ws| - 1];
      assert ws == m + [w];
      var f0 := PassScales(g, list, x, m, n);
      var h := VisitScales(g, list, Pass(g, x, m), w, n);
      ScaledTwice(g, list, x, Pass(g, x, m), Pass(g, x, ws), n, f0, h);
      f := Product(h, f0);
    }
  }

  lemma NotScaled(g: Numbering, list: seq<Cell>, x: seq<real>, n: nat)
    requires Valid(g) && Regular(g, list) && |x| == g.size && n < g.nodes
    ensures ScaledBy(g, list, x, x, n, 1.0)
  {}

  lemma UniformIsStraight(g: Numbering, mesh: seq<Cell>, list: seq<Cell>, x: seq<real>, n: nat)
    requires Valid(g) && Regular(g, mesh) && Uniform(mesh) && Over(mesh, list) && |x| == g.size && n < g.nodes
    ensures OneFactor(g, list, x, After(g, mesh, list, x), n)
  {
    hide Valid, Fits, Within, ScaledBy, Pass;
    VisitsFit(g, list);
    VisitsFrom(list);
    var ws := Visits(list);
    forall w, e | w in ws && e in list && w.node == n && n in e.nodes
      ensures w.carriers == [] || Within(e.carriers, w.carriers)
    {
      var f, j :| f in list && 0 <= j < |f.nodes| && w == Visit(f.nodes[j], f.carriers);
      assert f.nodes[j] in f.nodes;
    }
    var f := PassScales(g, list, x, ws, n);
  }

  ghost function TwoCarriers(a: nat, b: nat): nat -> real {
    (c: nat) => if c == a then 20.0 else if c == b then 1.0 else 0.0
  }

  /** A pass over two elements where only the first finds something to scale, at node n. */
  lemma SecondQuiet(g: Numbering, mesh: seq<Cell>, e: Cell, f: Cell, n: nat, x: seq<real>)
    requires Valid(g) && Regular(g, mesh) && e in mesh && f in mesh && n in e.nodes && |x| == g.size
    requires forall v :: v in VisitsOf(e) && v.node != n ==> Fits(g, v) && Quiet(g, x, v)
    requires Fits(g, Visit(n, e.carriers))
    requires forall v :: v in VisitsOf(f) ==> Fits(g, v) && Quiet(g, Limit(g, x, Visit(n, e.carriers)), v)
    ensures After(g, mesh, [e, f], x) == Limit(g, x, Visit(n, e.carriers))
  {
    hide Limit, Quiet, Fits, VisitsOf, Visits;
    VisitsOfCell(g, mesh, e);
    PairVisits(e, f);
    VisitsFit(g, [e, f]);
    PassTwice(g, x, VisitsOf(e), VisitsOf(f));
    LoudPass(g, x, VisitsOf(e), Visit(n, e.carriers));
    QuietPass(g, Limit(g, x, Visit(n, e.carriers)), VisitsOf(f));
  }

  /** One element holds carrier a but not b, the next one b: a is scaled and b is not. */
  lemma DirectionLost(g: Numbering, mesh: seq<Cell>, e: Cell, f: Cell, n: nat, a: nat, b: nat)
    returns (x: seq<real>)
    requires Valid(g) && Regular(g, mesh) && e in mesh && f in mesh && n in e.nodes && n in f.nodes
    requires a in e.carriers && b in f.carriers && b !in e.carriers
    ensures |x| == g.size && n < g.nodes && !OneFactor(g, [e, f], x, After(g, mesh, [e, f], x), n)
  {
    hide MovesAlong, Limit, Factor, Quiet, Touched, VisitsOf, Visits, Pass, Valid;
    var k, w := TwoCarriers(a, b), Visit(n, e.carriers);
    x := Moved(g, n, 0.0, k);
    VisitsOfCell(g, mesh, e);
    VisitsOfCell(g, mesh, f);
    forall v | v in VisitsOf(e) && v.node != n ensures Quiet(g, x, v) { MovedQuiet(g, x, n, 0.0, k, v); }
    HalfOfOne(g, x, w, a, b);
    forall v | v in VisitsOf(f) ensures Quiet(g, Limit(g, x, w), v) { BentQuiet(g, x, w, a, b, v); }
    SecondQuiet(g, mesh, e, f, n, x);
    NoOneFactor(g, e, f, n, x, a, b);
  }

  lemma HalfOfOne(g: Numbering, x: seq<real>, w: Visit, a: nat, b: nat)
    requires Valid(g) && |x| == g.size && Fits(g, w) && a in w.carriers && b !in w.carriers
    requires MovesAlong(g, x, w.node, 0.0, TwoCarriers(a, b))
    ensures Factor(g, x, w) == 0.5
  {
    hide MovesAlong, Factor, ChemicalStep;
    forall c | c in w.carriers ensures ChemicalStep(g, x, c, w.node) == Abs(TwoCarriers(a, b)(c)) {
      MovedStep(g, x, w.node, 0.0, TwoCarriers(a, b), c, w.node);
    }
    HalfFactor(g, x, w, a);
  }

  lemma BentQuiet(g: Numbering, x: seq<real>, w: Visit, a: nat, b: nat, v: Visit)
    requires Valid(g) && |x| == g.size && Fits(g, w) && Fits(g, v) && a in w.carriers && b !in w.carriers
    requires MovesAlong(g, x, w.node, 0.0, TwoCarriers(a, b))
    ensures Quiet(g, Limit(g, x, w), v)
  {
    var y, k := Limit(g, x, w), TwoCarriers(a, b);
    hide Limit, Factor, Touched, MovesAlong, ChemicalStep;
    VisitQuiets(g, x, w);
    forall i | 0 <= i < |v.carriers| ensures ChemicalStep(g, y, v.carriers[i], v.node) <= MAX_STEP {
      var c := v.carriers[i];
      MovedStep(g, x, w.node, 0.0, k, c, v.node);
      if v.node != w.node {
        StepElsewhere(g, x, w, c, v.node);
      } else if c in w.carriers {
        var j :| 0 <= j < |w.carriers| && w.carriers[j] == c;
      } else {
        RestingStep(g, x, w, c, k);
      }
    }
  }

  /** A carrier that a visit does not look at keeps its step if the potential rests. */
  lemma RestingStep(g: Numbering, x: seq<real>, w: Visit, c: nat, k: nat -> real)
    requires Valid(g) && |x| == g.size && Fits(g, w) && c < |g.charges| && c !in w.carriers
    requires MovesAlong(g, x, w.node, 0.0, k)
    ensures Limit(g, x, w)[g.dof(g.Potential(), w.node)] == 0.0
    ensures Limit(g, x, w)[g.dof(c, w.node)] == x[g.dof(c, w.node)] == k(c)
    ensures ChemicalStep(g, Limit(g, x, w), c, w.node) == Abs(k(c))
  {
    hide Factor;
    var u, i := g.dof(g.Potential(), w.node), g.dof(c, w.node);
    assert !Touched(g, w, i);
    AtUnknown(g, x, w, u);
    AtUnknown(g, x, w, i);
    assert Abs(g.charges[c]) * 0.0 == 0.0;
  }

  lemma NoOneFactor(g: Numbering, e: Cell, f: Cell, n: nat, x: seq<real>, a: nat, b: nat)
    requires Valid(g) && Regular(g, [e, f]) && |x| == g.size && n in e.nodes && n in f.nodes && n < g.nodes
    requires a in e.carriers && b in f.carriers && b !in e.carriers
    requires MovesAlong(g, x, n, 0.0, TwoCarriers(a, b)) && Factor(g, x, Visit(n, e.carriers)) == 0.5
    ensures !OneFactor(g, [e, f], x, Limit(g, x, Visit(n, e.carriers)), n)
  {
    var w := Visit(n, e.carriers);
    var y := Limit(g, x, w);
    assert e in [e, f] && f in [e, f];
    CarrierScaled(g, x, w, a);
    RestingStep(g, x, w, b, TwoCarriers(a, b));
    assert x[g.dof(a, n)] == 20.0 by { assert Abs(g.charges[a]) * 0.0 == 0.0; }
    hide Limit, Factor, Touched, MovesAlong;
    var ya, yb := y[g.dof(a, n)], y[g.dof(b, n)];
    assert ya == 10.0 && yb == 1.0;
    forall h: real { TwoProducts(h); }
  }

  lemma TwoProducts(h: real)
    ensures Product(h, 20.0) == 20.0 * h && Product(h, 1.0) == h
  {}

  /** Every pass keeps the direction of every node's update if and only if all materials at a node
      that hold any carriers hold the same ones. */
  lemma DirectionKept(g: Numbering, mesh: seq<Cell>)
    requires Valid(g) && Regular(g, mesh)
    ensures AlwaysStraight(g, mesh) <==> Uniform(mesh)
  {
    hide OneFactor, Valid;
    if Uniform(mesh) {
      forall list: seq<Cell>, x: seq<real>, n: nat | Over(mesh, list) && |x| == g.size && n < g.nodes
        ensures OneFactor(g, list, x, After(g, mesh, list, x), n)
      {
        UniformIsStraight(g, mesh, list, x, n);
      }
    } else {
      var e, f, n: nat :| e in mesh && f in mesh && n in e.nodes && n in f.nodes
        && !(e.carriers == [] || Within(f.carriers, e.carriers));
      var b :| b in f.carriers && b !in e.carriers;
      assert e.carriers[0] in e.carriers;
      var x := DirectionLost(g, mesh, e, f, n, e.carriers[0], b);
      assert Over(mesh, [e, f]);
    }
  }
}
