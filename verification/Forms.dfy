/** Contribution lists. The assembly adds values at places; what it assembles is determined
    by the linear form w -> sum of w(place) * value over all contributions. */
module Forms {
  import opened Calculus

  datatype Add<R> = Add(at: R, val: real)

  /** The contributions tested with w. */
  function Dot<R(!new)>(adds: seq<Add<R>>, w: R -> real): real {
    if adds == [] then 0.0 else
      var last := adds[|adds| - 1];
      Dot(adds[..|adds| - 1], w) + w(last.at) * last.val
  }

  function Sum(f: nat -> real, n: nat): real {
    if n == 0 then 0.0 else Sum(f, n - 1) + f(n - 1)
  }

  /** The lists f(0), ..., f(n-1) one after the other. */
  function Flat<A(!new)>(f: nat -> seq<A>, n: nat): seq<A> {
    if n == 0 then [] else Flat(f, n - 1) + f(n - 1)
  }

  lemma FlatNext<A(!new)>(before: seq<A>, f: nat -> seq<A>, k: nat)
    ensures before + Flat(f, k + 1) == (before + Flat(f, k)) + f(k)
  {}

  lemma FlatNone<A(!new)>(before: seq<A>, f: nat -> seq<A>)
    ensures before + Flat(f, 0) == before
  {}

  lemma DotAppend<R(!new)>(adds: seq<Add<R>>, a: Add<R>, w: R -> real)
    ensures Dot(adds + [a], w) == Dot(adds, w) + w(a.at) * a.val
  {
    assert (adds + [a])[..|adds|] == adds;
  }

  lemma {:induction false} DotConcat<R(!new)>(a: seq<Add<R>>, b: seq<Add<R>>, w: R -> real)
    ensures Dot(a + b, w) == Dot(a, w) + Dot(b, w)
  {
    if b == [] {
      assert a + b == a;
    } else {
      var n := |b| - 1;
      DotConcat(a, b[..n], w);
      assert a + b == (a + b[..n]) + [b[n]];
      DotAppend(a + b[..n], b[n], w);
    }
  }

  lemma DotSingle<R(!new)>(a: Add<R>, w: R -> real)
    ensures Dot([a], w) == w(a.at) * a.val
  {
    assert [a] == [] + [a];
    DotAppend([], a, w);
  }

  lemma DotFour<R(!new)>(a: Add<R>, b: Add<R>, c: Add<R>, d: Add<R>, z: R -> real)
    ensures Dot([a, b, c, d], z) == z(a.at) * a.val + z(b.at) * b.val + z(c.at) * c.val + z(d.at) * d.val
  {
    assert [a, b, c, d] == (([] + [a]) + [b] + [c]) + [d];
    DotAppend([], a, z);
    DotAppend([] + [a], b, z);
    DotAppend([] + [a] + [b], c, z);
    DotAppend([] + [a] + [b] + [c], d, z);
  }

  /** Testing is additive over the pieces of a flattened list. */
  function DotOf<R(!new)>(f: nat -> seq<Add<R>>, w: R -> real): nat -> real {
    (i: nat) => Dot(f(i), w)
  }

  lemma {:induction false} DotFlat<R(!new)>(f: nat -> seq<Add<R>>, n: nat, w: R -> real)
    ensures Dot(Flat(f, n), w) == Sum(DotOf(f, w), n)
  {
    if n > 0 {
      DotFlat(f, n - 1, w);
      DotConcat(Flat(f, n - 1), f(n - 1), w);
    }
  }

  lemma {:induction false} SumEqual(f: nat -> real, g: nat -> real, n: nat)
    requires forall i: nat :: i < n ==> f(i) == g(i)
    ensures Sum(f, n) == Sum(g, n)
  {
    if n > 0 { SumEqual(f, g, n - 1); }
  }

  lemma {:induction false} SumZero(f: nat -> real, n: nat)
    requires forall i: nat :: i < n ==> f(i) == 0.0
    ensures Sum(f, n) == 0.0
  {
    if n > 0 { SumZero(f, n - 1); }
  }

  lemma {:induction false} SumNonNegative(f: nat -> real, n: nat)
    requires forall i: nat :: i < n ==> f(i) >= 0.0
    ensures Sum(f, n) >= 0.0
    ensures Sum(f, n) == 0.0 ==> forall i: nat :: i < n ==> f(i) == 0.0
  {
    if n > 0 { SumNonNegative(f, n - 1); }
  }

  lemma {:induction false} SumAtLeast(f: nat -> real, j: nat, n: nat)
    requires j < n && forall i: nat :: i < n ==> f(i) >= 0.0
    ensures Sum(f, n) >= f(j)
  {
    if j == n - 1 { SumNonNegative(f, n - 1); } else { SumAtLeast(f, j, n - 1); }
  }

  lemma {:induction false} SumPlus(f: nat -> real, g: nat -> real, s: nat -> real, n: nat)
    requires forall i: nat :: i < n ==> s(i) == f(i) + g(i)
    ensures Sum(s, n) == Sum(f, n) + Sum(g, n)
  {
    if n > 0 { SumPlus(f, g, s, n - 1); }
  }

  lemma {:induction false} SumScale(f: nat -> real, k: real, s: nat -> real, n: nat)
    requires forall i: nat :: i < n ==> s(i) == k * f(i)
    ensures Sum(s, n) == k * Sum(f, n)
  {
    if n > 0 {
      SumScale(f, k, s, n - 1);
      assert k * (Sum(f, n - 1) + f(n - 1)) == k * Sum(f, n - 1) + k * f(n - 1);
    }
  }

  /** Only the term at j survives. */
  lemma {:induction false} SumSingle(f: nat -> real, j: nat, n: nat)
    requires j < n && forall i: nat :: i < n && i != j ==> f(i) == 0.0
    ensures Sum(f, n) == f(j)
  {
    if n - 1 == j { SumZero(f, n - 1); } else { SumSingle(f, j, n - 1); }
  }

  // ---------------------------------------------------------------------------------------
  // Double sums

  function RowOf(t: (nat, nat) -> real, p: nat): nat -> real {
    (q: nat) => t(p, q)
  }

  function RowSums(t: (nat, nat) -> real, n: nat): nat -> real {
    (p: nat) => Sum(RowOf(t, p), n)
  }

  function ColumnOf(t: (nat, nat) -> real, q: nat): nat -> real {
    (p: nat) => t(p, q)
  }

  function ColumnSums(t: (nat, nat) -> real, n: nat): nat -> real {
    (q: nat) => Sum(ColumnOf(t, q), n)
  }

  lemma {:induction false} SwapSums(t: (nat, nat) -> real, n: nat, m: nat)
    ensures Sum(RowSums(t, m), n) == Sum(ColumnSums(t, n), m)
  {
    if n == 0 {
      SumZero(ColumnSums(t, 0), m);
    } else {
      SwapSums(t, n - 1, m);
      SumPlus(ColumnSums(t, n - 1), RowOf(t, n - 1), ColumnSums(t, n), m);
    }
  }

  // ---------------------------------------------------------------------------------------
  // Entries: testing with the indicator of one place

  function Delta(g: nat): nat -> real {
    (d: nat) => if d == g then 1.0 else 0.0
  }

  /** Value accumulated at place g. */
  function Entry(adds: seq<Add<nat>>, g: nat): real {
    Dot(adds, Delta(g))
  }

  lemma EntryAppend(adds: seq<Add<nat>>, a: Add<nat>, g: nat)
    ensures Entry(adds + [a], g) == Entry(adds, g) + (if a.at == g then a.val else 0.0)
  {
    DotAppend(adds, a, Delta(g));
  }

  function Weighted(adds: seq<Add<nat>>, w: nat -> real): nat -> real {
    (g: nat) => w(g) * Entry(adds, g)
  }

  ghost predicate PlacesBelow(adds: seq<Add<nat>>, n: nat) {
    forall i :: 0 <= i < |adds| ==> adds[i].at < n
  }

  lemma {:induction false} FlatBelow(f: nat -> seq<Add<nat>>, n: nat, size: nat)
    requires forall i: nat :: i < n ==> PlacesBelow(f(i), size)
    ensures PlacesBelow(Flat(f, n), size)
  {
    if n > 0 { FlatBelow(f, n - 1, size); }
  }

  /** The form is recovered from the entries: sum of w(g) * entry(g) over all places. */
  lemma {:induction false} EntriesDetermineForm(adds: seq<Add<nat>>, w: nat -> real, n: nat)
    requires PlacesBelow(adds, n)
    ensures Sum(Weighted(adds, w), n) == Dot(adds, w)
  {
    if adds == [] {
      forall g: nat | g < n ensures Weighted(adds, w)(g) == 0.0 {
        assert Entry(adds, g) == 0.0;
      }
      SumZero(Weighted(adds, w), n);
    } else {
      var rest, last := adds[..|adds| - 1], adds[|adds| - 1];
      EntriesDetermineForm(rest, w, n);
      assert adds == rest + [last];
      assert last.at < n;
      WeightedAppend(rest, last, w, n);
    }
  }

  function Spike(at: nat, c: real): nat -> real {
    (g: nat) => if g == at then c else 0.0
  }

  lemma WeightedAppend(adds: seq<Add<nat>>, a: Add<nat>, w: nat -> real, n: nat)
    requires a.at < n
    ensures Sum(Weighted(adds + [a], w), n) == Sum(Weighted(adds, w), n) + w(a.at) * a.val
  {
    var one := Spike(a.at, w(a.at) * a.val);
    SumSingle(one, a.at, n);
    forall g: nat | g < n ensures Weighted(adds + [a], w)(g) == Weighted(adds, w)(g) + one(g) {
      EntryAppend(adds, a, g);
      hide Entry;
      if g == a.at { Distribute(w(g), Entry(adds, g), a.val); }
    }
    hide Entry;
    SumPlus(Weighted(adds, w), one, Weighted(adds + [a], w), n);
  }

  lemma Distribute(k: real, x: real, y: real)
    ensures k * (x + y) == k * x + k * y
  {}

}
