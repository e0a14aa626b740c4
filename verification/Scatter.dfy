/** Adding an element vector or matrix to the global one. Whatever the numbering, each global
    entry receives exactly the contributions made for it. */
module Scatter {
  import opened Calculus
  import opened Forms
  import opened BoxMesh
  import opened BoxSystem
  import opened BoxJacobian
  import opened Layout
  import opened ElementVector

  /** The slot stored at a position of the element vector. */
  ghost function SlotAt(el: Element, p: nat): (s: Slot)
    requires p < Total(el.dofs)
    ensures InRange(el, s) && Position(el, s) == p
  {
    BlocksTile(el.dofs, p);
    var k: nat, i: nat :| Inside(el.dofs, k, i) && p == Offset(el.dofs, k) + i;
    assert InRange(el, Slot(k, i));
    Slot(k, i)
  }

  lemma SlotAtPosition(el: Element, s: Slot, p: nat)
    requires InRange(el, s) && p < Total(el.dofs)
    ensures SlotAt(el, p) == s <==> p == Position(el, s)
  {
    var r := SlotAt(el, p);
    NoOverlap(el.dofs, s.block, s.id, r.block, r.id);
  }

  // ---------------------------------------------------------------------------------------
  // Vector

  /** Reads every entry of the element vector with weight w. */
  ghost function Reading(el: Element, adds: seq<Add<Slot>>, w: Slot -> real): nat -> real {
    (p: nat) => if p < Total(el.dofs) then w(SlotAt(el, p)) * Dot(adds, Spot(SlotAt(el, p))) else 0.0
  }

  lemma {:induction false} ReadingSum(el: Element, adds: seq<Add<Slot>>, w: Slot -> real)
    requires AllInRange(el, adds)
    ensures Sum(Reading(el, adds, w), Total(el.dofs)) == Dot(adds, w)
  {
    hide Total, SlotAt;
    var n := Total(el.dofs);
    if adds == [] {
      forall p: nat ensures Reading(el, [], w)(p) == 0.0 { ReadingNone(el, w, p); }
      hide Reading;
      SumZero(Reading(el, [], w), n);
    } else {
      var rest, last := adds[..|adds| - 1], adds[|adds| - 1];
      assert adds == rest + [last];
      ReadingSum(el, rest, w);
      var at := Position(el, last.at);
      var one := Spike(at, w(last.at) * last.val);
      SumSingle(one, at, n);
      forall p: nat | p < n ensures Reading(el, adds, w)(p) == Reading(el, rest, w)(p) + one(p) {
        hide Reading, Spike, Dot;
        ReadingStep(el, rest, last, w, p);
      }
      hide Reading, Spike;
      SumPlus(Reading(el, rest, w), one, Reading(el, adds, w), n);
    }
  }

  lemma ReadingNone(el: Element, w: Slot -> real, p: nat)
    ensures Reading(el, [], w)(p) == 0.0
  {
    hide Total, SlotAt;
    if p < Total(el.dofs) {
      assert Dot([], Spot(SlotAt(el, p))) == 0.0;
    }
  }

  lemma ReadingStep(el: Element, adds: seq<Add<Slot>>, a: Add<Slot>, w: Slot -> real, p: nat)
    requires InRange(el, a.at) && p < Total(el.dofs)
    ensures Reading(el, adds + [a], w)(p)
         == Reading(el, adds, w)(p) + Spike(Position(el, a.at), w(a.at) * a.val)(p)
  {
    hide Total, Dot;
    var s := SlotAt(el, p);
    SlotAtPosition(el, a.at, p);
    DotAppend(adds, a, Spot(s));
    hide SlotAt;
    Distribute(w(s), Dot(adds, Spot(s)), Spot(s)(a.at) * a.val);
  }

  /** What lands on global entry g from the positions below n. */
  function Landing(idx: seq<nat>, fe: seq<real>, g: nat): nat -> real {
    (p: nat) => if p < |idx| && p < |fe| && idx[p] == g then fe[p] else 0.0
  }

  lemma LandingComplete(el: Element, fe: seq<real>, adds: seq<Add<Slot>>, g: nat)
    requires Holds(el, fe, adds) && AllInRange(el, adds)
    ensures Sum(Landing(Joined(el.dofs), fe, g), Total(el.dofs)) == Dot(adds, Test(el, Delta(g)))
  {
    ReadingSum(el, adds, Test(el, Delta(g)));
    JoinedAt(el.dofs);
    hide Total, Joined;
    forall p: nat | p < Total(el.dofs)
      ensures Landing(Joined(el.dofs), fe, g)(p) == Reading(el, adds, Test(el, Delta(g)))(p)
    {
      var s := SlotAt(el, p);
      assert Inside(el.dofs, s.block, s.id);
      assert fe[Position(el, s)] == Dot(adds, Spot(s));
    }
    SumEqual(Landing(Joined(el.dofs), fe, g), Reading(el, adds, Test(el, Delta(g))), Total(el.dofs));
  }

  /** The element vector is added to the global vector. */
  method AddVector(r: array<real>, fe: array<real>, idx: seq<nat>)
    requires r != fe && |idx| == fe.Length && forall p :: 0 <= p < |idx| ==> idx[p] < r.Length
    modifies r
    ensures forall g: nat :: g < r.Length ==> r[g] == old(r[g]) + Sum(Landing(idx, fe[..], g), |idx|)
  {
    for n := 0 to |idx|
      invariant fe[..] == old(fe[..])
      invariant forall g: nat :: g < r.Length ==> r[g] == old(r[g]) + Sum(Landing(idx, fe[..], g), n)
    {
      r[idx[n]] := r[idx[n]] + fe[n];
    }
  }

  // ---------------------------------------------------------------------------------------
  // Matrix

  /** Sum over all pairs below n. */
  function Sum2(t: (nat, nat) -> real, n: nat): real {
    Sum(RowSums(t, n), n)
  }

  lemma Sum2Equal(f: (nat, nat) -> real, g: (nat, nat) -> real, n: nat)
    requires forall p: nat, q: nat :: p < n && q < n ==> f(p, q) == g(p, q)
    ensures Sum2(f, n) == Sum2(g, n)
  {
    forall p: nat | p < n ensures RowSums(f, n)(p) == RowSums(g, n)(p) {
      SumEqual(RowOf(f, p), RowOf(g, p), n);
    }
    SumEqual(RowSums(f, n), RowSums(g, n), n);
  }

  lemma Sum2Plus(f: (nat, nat) -> real, g: (nat, nat) -> real, s: (nat, nat) -> real, n: nat)
    requires forall p: nat, q: nat :: p < n && q < n ==> s(p, q) == f(p, q) + g(p, q)
    ensures Sum2(s, n) == Sum2(f, n) + Sum2(g, n)
  {
    forall p: nat | p < n ensures RowSums(s, n)(p) == RowSums(f, n)(p) + RowSums(g, n)(p) {
      SumPlus(RowOf(f, p), RowOf(g, p), RowOf(s, p), n);
    }
    SumPlus(RowSums(f, n), RowSums(g, n), RowSums(s, n), n);
  }

  lemma Sum2Zero(f: (nat, nat) -> real, n: nat)
    requires forall p: nat, q: nat :: p < n && q < n ==> f(p, q) == 0.0
    ensures Sum2(f, n) == 0.0
  {
    forall p: nat | p < n ensures RowSums(f, n)(p) == 0.0 {
      SumZero(RowOf(f, p), n);
    }
    SumZero(RowSums(f, n), n);
  }

  function Spike2(p: nat, q: nat, c: real): (nat, nat) -> real {
    (i: nat, j: nat) => if i == p && j == q then c else 0.0
  }

  lemma Sum2Spike(p: nat, q: nat, c: real, n: nat)
    requires p < n && q < n
    ensures Sum2(Spike2(p, q, c), n) == c
  {
    var t := Spike2(p, q, c);
    forall i: nat | i < n && i != p ensures RowSums(t, n)(i) == 0.0 {
      SumZero(RowOf(t, i), n);
    }
    SumSingle(RowOf(t, p), q, n);
    SumSingle(RowSums(t, n), p, n);
  }

  ghost function PlaceAt(el: Element, p: nat, q: nat): Place
    requires p < Total(el.dofs) && q < Total(el.dofs)
  {
    Place(SlotAt(el, p), SlotAt(el, q))
  }

  ghost function Reading2(el: Element, adds: seq<Add<Place>>, w: Place -> real): (nat, nat) -> real {
    (p: nat, q: nat) =>
      if p < Total(el.dofs) && q < Total(el.dofs) then w(PlaceAt(el, p, q)) * Dot(adds, Spot(PlaceAt(el, p, q)))
      else 0.0
  }

  ghost predicate PlacesInRange(el: Element, adds: seq<Add<Place>>) {
    forall i :: 0 <= i < |adds| ==> InRange(el, adds[i].at.row) && InRange(el, adds[i].at.col)
  }

  lemma {:induction false} ReadingSum2(el: Element, adds: seq<Add<Place>>, w: Place -> real)
    requires PlacesInRange(el, adds)
    ensures Sum2(Reading2(el, adds, w), Total(el.dofs)) == Dot(adds, w)
  {
    hide Total, SlotAt, PlaceAt, Sum2;
    var n := Total(el.dofs);
    if adds == [] {
      forall p: nat, q: nat ensures Reading2(el, [], w)(p, q) == 0.0 { ReadingNone2(el, w, p, q); }
      hide Reading2;
      Sum2Zero(Reading2(el, [], w), n);
    } else {
      var rest, last := adds[..|adds| - 1], adds[|adds| - 1];
      assert adds == rest + [last];
      ReadingSum2(el, rest, w);
      var at, to := Position(el, last.at.row), Position(el, last.at.col);
      var one := Spike2(at, to, w(last.at) * last.val);
      Sum2Spike(at, to, w(last.at) * last.val, n);
      forall p: nat, q: nat | p < n && q < n
        ensures Reading2(el, adds, w)(p, q) == Reading2(el, rest, w)(p, q) + one(p, q)
      {
        hide Reading2, Spike2, Dot;
        ReadingStep2(el, rest, last, w, p, q);
      }
      hide Reading2, Spike2;
      Sum2Plus(Reading2(el, rest, w), one, Reading2(el, adds, w), n);
    }
  }

  lemma ReadingNone2(el: Element, w: Place -> real, p: nat, q: nat)
    ensures Reading2(el, [], w)(p, q) == 0.0
  {
    hide Total, SlotAt;
    if p < Total(el.dofs) && q < Total(el.dofs) {
      assert Dot([], Spot(PlaceAt(el, p, q))) == 0.0;
    }
  }

  lemma ReadingStep2(el: Element, adds: seq<Add<Place>>, a: Add<Place>, w: Place -> real, p: nat, q: nat)
    requires InRange(el, a.at.row) && InRange(el, a.at.col) && p < Total(el.dofs) && q < Total(el.dofs)
    ensures Reading2(el, adds + [a], w)(p, q)
         == Reading2(el, adds, w)(p, q)
          + Spike2(Position(el, a.at.row), Position(el, a.at.col), w(a.at) * a.val)(p, q)
  {
    hide Total, Dot;
    var s := PlaceAt(el, p, q);
    SlotAtPosition(el, a.at.row, p);
    SlotAtPosition(el, a.at.col, q);
    DotAppend(adds, a, Spot(s));
    hide SlotAt;
    Distribute(w(s), Dot(adds, Spot(s)), Spot(s)(a.at) * a.val);
  }

  function Entries(ke: array2<real>): (r: seq<seq<real>>)
    reads ke
    ensures |r| == ke.Length0 && forall p :: 0 <= p < |r| ==> |r[p]| == ke.Length1
    ensures forall p: nat, q: nat :: p < ke.Length0 && q < ke.Length1 ==> r[p][q] == ke[p, q]
  {
    seq(ke.Length0, p requires 0 <= p < ke.Length0 reads ke =>
      seq(ke.Length1, q requires 0 <= q < ke.Length1 reads ke => ke[p, q]))
  }

  function Landing2(idx: seq<nat>, ke: seq<seq<real>>, g: nat, j: nat): (nat, nat) -> real {
    (p: nat, q: nat) =>
      if p < |idx| && q < |idx| && p < |ke| && q < |ke[p]| && idx[p] == g && idx[q] == j then ke[p][q] else 0.0
  }

  ghost predicate HoldsEntries(el: Element, ke: seq<seq<real>>, adds: seq<Add<Place>>) {
    && |ke| == Total(el.dofs) && (forall p :: 0 <= p < |ke| ==> |ke[p]| == |ke|)
    && forall r: Slot, c: Slot :: InRange(el, r) && InRange(el, c) ==>
         ke[Position(el, r)][Position(el, c)] == Dot(adds, Spot(Place(r, c)))
  }

  lemma NumberAt(el: Element, p: nat)
    requires p < Total(el.dofs)
    ensures |Joined(el.dofs)| == Total(el.dofs) && Joined(el.dofs)[p] == DofOf(el, SlotAt(el, p))
  {
    JoinedAt(el.dofs);
    var s := SlotAt(el, p);
    assert Inside(el.dofs, s.block, s.id);
  }

  lemma LandingOne(el: Element, ke: seq<seq<real>>, adds: seq<Add<Place>>, g: nat, j: nat, p: nat, q: nat)
    requires HoldsEntries(el, ke, adds) && p < Total(el.dofs) && q < Total(el.dofs)
    ensures Landing2(Joined(el.dofs), ke, g, j)(p, q)
         == Reading2(el, adds, Both(Test(el, Delta(g)), Test(el, Delta(j))))(p, q)
  {
    NumberAt(el, p);
    NumberAt(el, q);
    hide Total, Joined, Dot;
    var r, c := SlotAt(el, p), SlotAt(el, q);
    assert PlaceAt(el, p, q) == Place(r, c);
    assert ke[Position(el, r)][Position(el, c)] == Dot(adds, Spot(Place(r, c)));
    hide SlotAt, HoldsEntries;
    var w := Both(Test(el, Delta(g)), Test(el, Delta(j)));
    assert w(Place(r, c)) == (if DofOf(el, r) == g && DofOf(el, c) == j then 1.0 else 0.0);
  }

  lemma LandingComplete2(el: Element, ke: seq<seq<real>>, adds: seq<Add<Place>>, g: nat, j: nat)
    requires HoldsEntries(el, ke, adds) && PlacesInRange(el, adds)
    ensures Sum2(Landing2(Joined(el.dofs), ke, g, j), Total(el.dofs))
         == Dot(adds, Both(Test(el, Delta(g)), Test(el, Delta(j))))
  {
    var w := Both(Test(el, Delta(g)), Test(el, Delta(j)));
    ReadingSum2(el, adds, w);
    forall p: nat, q: nat | p < Total(el.dofs) && q < Total(el.dofs)
      ensures Landing2(Joined(el.dofs), ke, g, j)(p, q) == Reading2(el, adds, w)(p, q)
    {
      LandingOne(el, ke, adds, g, j, p, q);
    }
    hide *;
    Sum2Equal(Landing2(Joined(el.dofs), ke, g, j), Reading2(el, adds, w), Total(el.dofs));
  }

  /** Row p of the element matrix is added to the global matrix. */
  method AddRow(m: array2<real>, ke: array2<real>, idx: seq<nat>, p: nat, ghost rows: seq<seq<real>>)
    requires m != ke && |idx| == ke.Length0 == ke.Length1 && p < |idx| && rows == Entries(ke)
    requires forall i :: 0 <= i < |idx| ==> idx[i] < m.Length0 && idx[i] < m.Length1
    modifies m
    ensures forall g: nat, j: nat :: g < m.Length0 && j < m.Length1 ==>
              m[g, j] == old(m[g, j]) + Sum(RowOf(Landing2(idx, rows, g, j), p), |idx|)
  {
    for n := 0 to |idx|
      invariant forall a, b :: 0 <= a < ke.Length0 && 0 <= b < ke.Length1 ==> ke[a, b] == old(ke[a, b])
      invariant forall g: nat, j: nat :: g < m.Length0 && j < m.Length1 ==>
                  m[g, j] == old(m[g, j]) + Sum(RowOf(Landing2(idx, rows, g, j), p), n)
    {
      m[idx[p], idx[n]] := m[idx[p], idx[n]] + ke[p, n];
    }
  }

  /** The element matrix is added to the global matrix. */
  method AddMatrix(m: array2<real>, ke: array2<real>, idx: seq<nat>)
    requires m != ke && |idx| == ke.Length0 == ke.Length1
    requires forall i :: 0 <= i < |idx| ==> idx[i] < m.Length0 && idx[i] < m.Length1
    modifies m
    ensures forall g: nat, j: nat :: g < m.Length0 && j < m.Length1 ==>
              m[g, j] == old(m[g, j]) + Sum2(Landing2(idx, Entries(ke), g, j), |idx|)
  {
    ghost var rows := Entries(ke);
    for p := 0 to |idx|
      invariant rows == Entries(ke)
      invariant forall g: nat, j: nat :: g < m.Length0 && j < m.Length1 ==>
                  m[g, j] == old(m[g, j]) + Sum(RowSums(Landing2(idx, rows, g, j), |idx|), p)
    {
      AddRow(m, ke, idx, p, rows);
    }
  }
}
