/** The step limiter along one given order of the elements: when the limit, once established at an
    element, is kept by the rest of the pass. */
module StepOrder {
  import opened Calculus
  import opened StepLimiter

  /** An element of the list holds carrier c at node n. */
  ghost predicate Held(list: seq<Cell>, n: nat, c: nat) {
    exists e :: e in list && n in e.nodes && c in e.carriers
  }

  /** The element holds all charged carriers the earlier ones hold at the node. */
  ghost predicate Collects(g: Numbering, before: seq<Cell>, n: nat, carriers: seq<nat>) {
    forall c: nat :: c < |g.charges| && g.charges[c] != 0.0 && Held(before, n, c) ==> c in carriers
  }

  /** The element holds no carrier that the earlier ones do not hold at the node. */
  ghost predicate Repeats(before: seq<Cell>, n: nat, carriers: seq<nat>) {
    forall c: nat :: c in carriers ==> Held(before, n, c)
  }

  /** Every element, at each of its nodes, collects all charged carriers seen there before, or brings
      no new one. */
  ghost predicate Orderly(g: Numbering, list: seq<Cell>) {
    forall j: nat, n: nat :: j < |list| && n in list[j].nodes ==>
      Collects(g, list[..j], n, list[j].carriers) || Repeats(list[..j], n, list[j].carriers)
  }

  /** The update after the first k elements. */
  ghost function UpTo(g: Numbering, list: seq<Cell>, k: nat, x: seq<real>): (r: seq<real>)
    requires Valid(g) && Regular(g, list) && k <= |list| && |x| == g.size
    ensures |r| == g.size
  {
    After(g, list, list[..k], x)
  }

  /** Throughout the pass, for every update, the limit holds for all elements visited so far. */
  ghost predicate BoundedThroughout(g: Numbering, list: seq<Cell>)
    requires Valid(g) && Regular(g, list)
  {
    forall k: nat, x: seq<real> :: k <= |list| && |x| == g.size ==> Bounded(g, UpTo(g, list, k, x), list[..k])
  }

  lemma OneElementMore(g: Numbering, list: seq<Cell>, k: nat, x: seq<real>)
    requires Valid(g) && Regular(g, list) && k < |list| && |x| == g.size
    ensures forall w :: w in VisitsOf(list[k]) ==> Fits(g, w)
    ensures UpTo(g, list, k + 1, x) == Pass(g, UpTo(g, list, k, x), VisitsOf(list[k]))
  {
    hide Pass, Fits;
    assert list[..k + 1][..k] == list[..k];
    VisitsFit(g, list[..k]);
    VisitsFit(g, list[..k + 1]);
    assert Visits(list[..k + 1]) == Visits(list[..k]) + VisitsOf(list[k]);
    PassTwice(g, x, Visits(list[..k]), VisitsOf(list[k]));
  }

  // ---------------------------------------------------------------------------------------
  // Orderly lists keep the limit

  ghost predicate HeldWithin(g: Numbering, x: seq<real>, list: seq<Cell>)
    requires Valid(g) && Regular(g, list) && |x| == g.size
  {
    forall n: nat, c: nat :: Held(list, n, c) && n < g.nodes && c < |g.charges| ==> ChemicalStep(g, x, c, n) <= MAX_STEP
  }

  lemma BoundedIsHeld(g: Numbering, x: seq<real>, list: seq<Cell>)
    requires Valid(g) && Regular(g, list) && |x| == g.size
    ensures Bounded(g, x, list) <==> HeldWithin(g, x, list)
  {
    hide ChemicalStep;
    if HeldWithin(g, x, list) {
      forall e, n, c | e in list && n in e.nodes && c in e.carriers ensures ChemicalStep(g, x, c, n) <= MAX_STEP {
        assert Held(list, n, c);
      }
    }
  }

  /** One visit of an element that collects or repeats keeps what holds for the earlier elements. */
  lemma VisitKeepsHeld(g: Numbering, x: seq<real>, before: seq<Cell>, w: Visit)
    requires Valid(g) && Regular(g, before) && |x| == g.size && Fits(g, w) && HeldWithin(g, x, before)
    requires Collects(g, before, w.node, w.carriers) || Repeats(before, w.node, w.carriers)
    ensures HeldWithin(g, Limit(g, x, w), before)
  {
    hide Limit, ChemicalStep, Factor, Valid, Held;
    if Repeats(before, w.node, w.carriers) {
      QuietKeeps(g, x, w);
    } else {
      FactorRange(g, x, w);
      forall n: nat, c: nat | Held(before, n, c) && n < g.nodes && c < |g.charges|
        ensures ChemicalStep(g, Limit(g, x, w), c, n) <= MAX_STEP
      {
        if n != w.node {
          StepElsewhere(g, x, w, c, n);
        } else if g.charges[c] == 0.0 {
          NeutralAfter(g, x, w, c);
        } else {
          StepScaled(g, x, w, c);
          StepLimiter.Scaled(Factor(g, x, w), ChemicalStep(g, x, c, n), MAX_STEP);
        }
      }
    }
  }

  /** The visits of one element. */
  lemma {:induction false} ElementKeepsHeld(g: Numbering, x: seq<real>, before: seq<Cell>, e: Cell, ws: seq<Visit>)
    requires Valid(g) && Regular(g, before) && |x| == g.size && HeldWithin(g, x, before)
    requires forall w :: w in ws ==> Fits(g, w) && w.carriers == e.carriers && w.node in e.nodes
    requires forall n :: n in e.nodes ==> Collects(g, before, n, e.carriers) || Repeats(before, n, e.carriers)
    ensures HeldWithin(g, Pass(g, x, ws), before)
  {
    hide Limit, HeldWithin, Collects, Repeats, Valid, Regular;
    if |ws| > 0 {
      ElementKeepsHeld(g, x, before, e, ws[..|ws| - 1]);
      VisitKeepsHeld(g, Pass(g, x, ws[..|ws| - 1]), before, ws[|ws| - 1]);
    }
  }

  lemma SameElement(g: Numbering, ws: seq<Visit>, carriers: seq<nat>)
    requires forall w :: w in ws ==> w.carriers == carriers
    ensures forall v, w :: v in ws && w in ws ==> Friendly(g, v, w)
  {}

  lemma NextElement(g: Numbering, list: seq<Cell>, k: nat, x: seq<real>)
    requires Valid(g) && Regular(g, list) && Orderly(g, list) && k < |list| && |x| == g.size
    requires HeldWithin(g, UpTo(g, list, k, x), list[..k])
    ensures HeldWithin(g, UpTo(g, list, k + 1, x), list[..k + 1])
  {
    var e, before, y := list[k], list[..k], UpTo(g, list, k, x);
    OneElementMore(g, list, k, x);
    VisitsOfCell(g, list, e);
    ElementKeepsHeld(g, y, before, e, VisitsOf(e));
    SameElement(g, VisitsOf(e), e.carriers);
    PassQuiets(g, y, VisitsOf(e));
    var z := Pass(g, y, VisitsOf(e));
    hide Valid, Pass, UpTo, ChemicalStep, VisitsOf, Orderly;
    forall n: nat, c: nat | Held(list[..k + 1], n, c) && n < g.nodes && c < |g.charges|
      ensures ChemicalStep(g, z, c, n) <= MAX_STEP
    {
      var f :| f in list[..k + 1] && n in f.nodes && c in f.carriers;
      if f in before {
        assert Held(before, n, c);
      } else {
        assert f == e;
        assert Quiet(g, z, Visit(n, e.carriers));
        var i :| 0 <= i < |e.carriers| && e.carriers[i] == c;
      }
    }
  }

  lemma {:induction false} OrderlyKeeps(g: Numbering, list: seq<Cell>, k: nat, x: seq<real>)
    requires Valid(g) && Regular(g, list) && Orderly(g, list) && k <= |list| && |x| == g.size
    ensures HeldWithin(g, UpTo(g, list, k, x), list[..k])
  {
    if k > 0 {
      OrderlyKeeps(g, list, k - 1, x);
      NextElement(g, list, k - 1, x);
    }
  }

  // ---------------------------------------------------------------------------------------
  // Others do not

  /** An element brings carrier b and lacks the charged carrier a: its visit pulls the potential away
      from a. */
  lemma LimitLost(g: Numbering, list: seq<Cell>, j: nat, n: nat, a: nat, b: nat) returns (x: seq<real>)
    requires Valid(g) && Regular(g, list) && j < |list| && n in list[j].nodes
    requires Held(list[..j], n, a) && a < |g.charges| && g.charges[a] != 0.0 && a !in list[j].carriers
    requires b in list[j].carriers && !Held(list[..j], n, b)
    ensures |x| == g.size && n < g.nodes && ChemicalStep(g, UpTo(g, list, j + 1, x), a, n) == 20.0
  {
    hide MovesAlong, Limit, Factor, Quiet, Touched, VisitsOf, Visits, Pass, Valid;
    var q, f := Abs(g.charges[a]), list[j];
    var d := 40.0 / q;
    var k, w := OneCarrier(b, 20.0), Visit(n, f.carriers);
    assert n < g.nodes;
    x := Moved(g, n, d, k);
    OneElementMore(g, list, j, x);
    VisitsOfCell(g, list, f);
    EarlierQuiet(g, list[..j], x, n, d, b);
    assert UpTo(g, list, j, x) == x;
    forall v | v in VisitsOf(f) && v.node != n ensures Quiet(g, x, v) { MovedQuiet(g, x, n, d, k, v); }
    LoudPass(g, x, VisitsOf(f), w);
    HalfMoved(g, x, w, b, d, k);
    OneCarrierElse(a, b);
    LeftBehind(g, x, w, a, q, d, k);
  }

  lemma OneCarrierElse(a: nat, b: nat)
    requires a != b
    ensures OneCarrier(b, 20.0)(a) == 0.0
  {}

  /** Elements that do not hold b at node n find nothing to scale. */
  lemma EarlierQuiet(g: Numbering, before: seq<Cell>, x: seq<real>, n: nat, d: real, b: nat)
    requires Valid(g) && Regular(g, before) && |x| == g.size && n < g.nodes && !Held(before, n, b)
    requires MovesAlong(g, x, n, d, OneCarrier(b, 20.0))
    ensures forall w :: w in Visits(before) ==> Fits(g, w)
    ensures Pass(g, x, Visits(before)) == x
  {
    hide MovesAlong, Quiet, Limit, Pass, Valid;
    VisitsFit(g, before);
    VisitsFrom(before);
    forall w | w in Visits(before) ensures Quiet(g, x, w) {
      var e, i :| e in before && 0 <= i < |e.nodes| && w == Visit(e.nodes[i], e.carriers);
      assert e.nodes[i] in e.nodes;
      MovedQuiet(g, x, n, d, OneCarrier(b, 20.0), w);
    }
    QuietPass(g, x, Visits(before));
  }

  /** Along the order of a list the limit holds throughout the pass, for every update, if and only if
      every element, at each of its nodes, collects all charged carriers seen there or brings no new
      carrier. */
  lemma BoundedInOrder(g: Numbering, list: seq<Cell>)
    requires Valid(g) && Regular(g, list)
    ensures BoundedThroughout(g, list) <==> Orderly(g, list)
  {
    hide Valid, UpTo, Bounded, HeldWithin;
    if Orderly(g, list) {
      forall k: nat, x: seq<real> | k <= |list| && |x| == g.size
        ensures Bounded(g, UpTo(g, list, k, x), list[..k])
      {
        OrderlyKeeps(g, list, k, x);
        BoundedIsHeld(g, UpTo(g, list, k, x), list[..k]);
      }
    } else {
      var j, x := Disorder(g, list);
    }
  }

  lemma Disorder(g: Numbering, list: seq<Cell>) returns (j: nat, x: seq<real>)
    requires Valid(g) && Regular(g, list) && !Orderly(g, list)
    ensures j < |list| && |x| == g.size && !Bounded(g, UpTo(g, list, j + 1, x), list[..j + 1])
  {
    hide Valid, UpTo, Bounded, HeldWithin, Held;
    var n: nat;
    j, n :| j < |list| && n in list[j].nodes
      && !(Collects(g, list[..j], n, list[j].carriers) || Repeats(list[..j], n, list[j].carriers));
    var before, carriers := list[..j], list[j].carriers;
    var a: nat :| a < |g.charges| && g.charges[a] != 0.0 && Held(before, n, a) && a !in carriers;
    var b: nat :| b in carriers && !Held(before, n, b);
    hide Collects, Repeats, Orderly;
    x := LimitLost(g, list, j, n, a, b);
    StillHeld(list, j, n, a);
    BoundedIsHeld(g, UpTo(g, list, j + 1, x), list[..j + 1]);
    NotWithin(g, UpTo(g, list, j + 1, x), list[..j + 1], n, a);
  }

  lemma StillHeld(list: seq<Cell>, j: nat, n: nat, a: nat)
    requires j < |list| && Held(list[..j], n, a)
    ensures Held(list[..j + 1], n, a)
  {
    var e :| e in list[..j] && n in e.nodes && a in e.carriers;
    assert e in list[..j + 1];
  }

  lemma NotWithin(g: Numbering, x: seq<real>, list: seq<Cell>, n: nat, a: nat)
    requires Valid(g) && Regular(g, list) && |x| == g.size && n < g.nodes && a < |g.charges| && Held(list, n, a)
    requires ChemicalStep(g, x, a, n) == 20.0
    ensures !HeldWithin(g, x, list)
  {}

  /** After a pass along an orderly list a second pass along it changes nothing. */
  lemma SecondPassInOrder(g: Numbering, list: seq<Cell>, x: seq<real>)
    requires Valid(g) && Regular(g, list) && Orderly(g, list) && |x| == g.size
    ensures After(g, list, list, After(g, list, list, x)) == After(g, list, list, x)
  {
    hide Valid, Bounded, Quiet, Fits, Pass, HeldWithin;
    OrderlyKeeps(g, list, |list|, x);
    assert list[..|list|] == list;
    var y := After(g, list, list, x);
    BoundedIsHeld(g, y, list);
    BoundedByVisits(g, y, list);
    PassIdle(g, y, Visits(list));
  }
}
