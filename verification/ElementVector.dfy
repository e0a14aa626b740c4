/** The element vector and the element matrix while they accumulate contributions: entry by
    entry they hold the sums of everything added so far. */
module ElementVector {
  import opened Calculus
  import opened Forms
  import opened BoxMesh
  import opened BoxSystem
  import opened Layout

  function Spot<R(==)>(r: R): R -> real {
    (s: R) => if s == r then 1.0 else 0.0
  }

  /** Position of a slot in the element vector. */
  function Position(el: Element, s: Slot): (p: nat)
    requires InRange(el, s)
    ensures p < Total(el.dofs)
  {
    BlockFits(el.dofs, s.block, s.id);
    Offset(el.dofs, s.block) + s.id
  }

  /** The blocks start where the layout puts them. */
  ghost predicate Located(el: Element, first: seq<nat>) {
    |first| == |el.dofs| && forall k :: 0 <= k < |first| ==> first[k] == Offset(el.dofs, k)
  }

  ghost predicate Holds(el: Element, fe: seq<real>, adds: seq<Add<Slot>>) {
    && |fe| == Total(el.dofs)
    && forall s: Slot :: InRange(el, s) ==> fe[Position(el, s)] == Dot(adds, Spot(s))
  }

  lemma HoldsNothing(el: Element, fe: seq<real>)
    requires |fe| == Total(el.dofs) && forall p :: 0 <= p < |fe| ==> fe[p] == 0.0
    ensures Holds(el, fe, [])
  {}

  lemma HoldsStep(el: Element, fe: seq<real>, s: Slot, v: real, adds: seq<Add<Slot>>)
    requires InRange(el, s) && Holds(el, fe, adds)
    ensures Holds(el, fe[Position(el, s) := fe[Position(el, s)] + v], adds + [Add(s, v)])
  {
    hide Offset, Total, Dot;
    forall r: Slot | InRange(el, r)
      ensures fe[Position(el, s) := fe[Position(el, s)] + v][Position(el, r)] == Dot(adds + [Add(s, v)], Spot(r))
    {
      DotAppend(adds, Add(s, v), Spot(r));
      NoOverlap(el.dofs, s.block, s.id, r.block, r.id);
    }
  }

  /** One sub-vector entry is increased. */
  method AddTo(el: Element, first: seq<nat>, fe: array<real>, k: nat, id: nat, v: real, ghost adds: seq<Add<Slot>>)
    requires Located(el, first) && InRange(el, Slot(k, id)) && Holds(el, fe[..], adds)
    modifies fe
    ensures Holds(el, fe[..], adds + [Add(Slot(k, id), v)])
  {
    ghost var was := fe[..];
    ghost var s := Slot(k, id);
    HoldsStep(el, was, s, v, adds);
    var p := first[k] + id;
    assert p == Position(el, s) && p < |was|;
    hide Holds;
    fe[p] := fe[p] + v;
    assert fe[..] == was[p := was[p] + v];
  }

  // ---------------------------------------------------------------------------------------
  // Element matrix

  ghost predicate HoldsMatrix(el: Element, ke: array2<real>, adds: seq<Add<Place>>)
    reads ke
  {
    && ke.Length0 == ke.Length1 == Total(el.dofs)
    && forall r: Slot, c: Slot :: InRange(el, r) && InRange(el, c) ==>
         ke[Position(el, r), Position(el, c)] == Dot(adds, Spot(Place(r, c)))
  }

  /** One sub-matrix entry is increased. */
  method AddToMatrix(el: Element, first: seq<nat>, ke: array2<real>, row: Slot, col: Slot, v: real,
                     ghost adds: seq<Add<Place>>)
    requires Located(el, first) && InRange(el, row) && InRange(el, col) && HoldsMatrix(el, ke, adds)
    modifies ke
    ensures HoldsMatrix(el, ke, adds + [Add(Place(row, col), v)])
  {
    var p, q := first[row.block] + row.id, first[col.block] + col.id;
    assert p == Position(el, row) && q == Position(el, col);
    label before:
    ke[p, q] := ke[p, q] + v;
    hide Offset, Total, Dot;
    forall r: Slot, c: Slot | InRange(el, r) && InRange(el, c)
      ensures ke[Position(el, r), Position(el, c)] == Dot(adds + [Add(Place(row, col), v)], Spot(Place(r, c)))
    {
      DotAppend(adds, Add(Place(row, col), v), Spot(Place(r, c)));
      NoOverlap(el.dofs, row.block, row.id, r.block, r.id);
      NoOverlap(el.dofs, col.block, col.id, c.block, c.id);
      assert old@before(ke[Position(el, r), Position(el, c)]) == Dot(adds, Spot(Place(r, c)));
    }
  }

  lemma HoldsMatrixNothing(el: Element, ke: array2<real>)
    requires ke.Length0 == ke.Length1 == Total(el.dofs)
    requires forall p, q :: 0 <= p < ke.Length0 && 0 <= q < ke.Length1 ==> ke[p, q] == 0.0
    ensures HoldsMatrix(el, ke, [])
  {}

  /** Additions with the same sums at every place may be exchanged. */
  lemma Exchange(el: Element, ke: array2<real>, adds: seq<Add<Place>>, a: seq<Add<Place>>, b: seq<Add<Place>>)
    requires HoldsMatrix(el, ke, adds + a)
    requires forall r: Slot, c: Slot :: Dot(a, Spot(Place(r, c))) == Dot(b, Spot(Place(r, c)))
    ensures HoldsMatrix(el, ke, adds + b)
  {
    hide Dot, Total;
    forall r: Slot, c: Slot | InRange(el, r) && InRange(el, c)
      ensures ke[Position(el, r), Position(el, c)] == Dot(adds + b, Spot(Place(r, c)))
    {
      DotConcat(adds, a, Spot(Place(r, c)));
      DotConcat(adds, b, Spot(Place(r, c)));
    }
  }
}
