/** Placement of the sub-blocks of an element system: one block of unknowns after the other in
    the order of the variables, conservation scalars last. */
module Layout {
  /** First position of block k. */
  function Offset(blocks: seq<seq<nat>>, k: nat): nat
    requires k <= |blocks|
  {
    if k == 0 then 0 else Offset(blocks, k - 1) + |blocks[k - 1]|
  }

  function Total(blocks: seq<seq<nat>>): nat {
    Offset(blocks, |blocks|)
  }

  /** The global numbers of all unknowns, block by block. */
  function Joined(blocks: seq<seq<nat>>): seq<nat> {
    if blocks == [] then [] else Joined(blocks[..|blocks| - 1]) + blocks[|blocks| - 1]
  }

  ghost predicate Inside(blocks: seq<seq<nat>>, k: nat, i: nat) {
    k < |blocks| && i < |blocks[k]|
  }

  lemma {:induction false} OffsetGrows(blocks: seq<seq<nat>>, k: nat, l: nat)
    requires k <= l <= |blocks|
    ensures Offset(blocks, k) <= Offset(blocks, l)
  {
    if k < l { OffsetGrows(blocks, k, l - 1); }
  }

  lemma {:induction false} OffsetPrefix(blocks: seq<seq<nat>>, more: seq<seq<nat>>, k: nat)
    requires k <= |blocks|
    ensures Offset(blocks + more, k) == Offset(blocks, k)
  {
    if k > 0 { OffsetPrefix(blocks, more, k - 1); }
  }

  /** Blocks stay inside the element system. */
  lemma BlockFits(blocks: seq<seq<nat>>, k: nat, i: nat)
    requires Inside(blocks, k, i)
    ensures Offset(blocks, k) + i < Total(blocks)
  {
    OffsetGrows(blocks, k + 1, |blocks|);
  }

  /** No two unknowns share a position. */
  lemma NoOverlap(blocks: seq<seq<nat>>, k: nat, i: nat, l: nat, j: nat)
    requires Inside(blocks, k, i) && Inside(blocks, l, j)
    ensures Offset(blocks, k) + i == Offset(blocks, l) + j <==> k == l && i == j
  {
    if k < l { OffsetGrows(blocks, k + 1, l); }
    if l < k { OffsetGrows(blocks, l + 1, k); }
  }

  /** Every position belongs to a block. */
  lemma {:induction false} NoGap(blocks: seq<seq<nat>>, n: nat, p: nat) returns (k: nat, i: nat)
    requires n <= |blocks| && p < Offset(blocks, n)
    ensures k < n && Inside(blocks, k, i) && p == Offset(blocks, k) + i
  {
    if p < Offset(blocks, n - 1) {
      k, i := NoGap(blocks, n - 1, p);
    } else {
      k, i := n - 1, p - Offset(blocks, n - 1);
    }
  }

  /** Position by position the blocks tile [0, Total). */
  lemma BlocksTile(blocks: seq<seq<nat>>, p: nat)
    ensures p < Total(blocks) <==> exists k: nat, i: nat :: Inside(blocks, k, i) && p == Offset(blocks, k) + i
    ensures forall k: nat, i: nat, l: nat, j: nat ::
              Inside(blocks, k, i) && Inside(blocks, l, j) && p == Offset(blocks, k) + i && p == Offset(blocks, l) + j
              ==> k == l && i == j
  {
    if p < Total(blocks) {
      var k, i := NoGap(blocks, |blocks|, p);
    }
    forall k: nat, i: nat | Inside(blocks, k, i) ensures Offset(blocks, k) + i < Total(blocks) {
      BlockFits(blocks, k, i);
    }
    forall k: nat, i: nat, l: nat, j: nat | Inside(blocks, k, i) && Inside(blocks, l, j)
      ensures Offset(blocks, k) + i == Offset(blocks, l) + j ==> k == l && i == j
    {
      NoOverlap(blocks, k, i, l, j);
    }
  }

  lemma {:induction false} JoinedAt(blocks: seq<seq<nat>>)
    ensures |Joined(blocks)| == Total(blocks)
    ensures forall k: nat, i: nat :: Inside(blocks, k, i) ==>
              Offset(blocks, k) + i < Total(blocks) && Joined(blocks)[Offset(blocks, k) + i] == blocks[k][i]
  {
    if blocks != [] {
      var n := |blocks| - 1;
      var rest := blocks[..n];
      JoinedAt(rest);
      assert blocks == rest + [blocks[n]];
      OffsetPrefix(rest, [blocks[n]], n);
      forall k: nat, i: nat | Inside(blocks, k, i)
        ensures Offset(blocks, k) + i < Total(blocks) && Joined(blocks)[Offset(blocks, k) + i] == blocks[k][i]
      {
        BlockFits(blocks, k, i);
        if k < n {
          OffsetPrefix(rest, [blocks[n]], k);
          assert Inside(rest, k, i);
        }
      }
    }
  }

  lemma JoinedAppend(blocks: seq<seq<nat>>, b: seq<nat>)
    ensures Joined(blocks + [b]) == Joined(blocks) + b
  {}

  /** A conservation scalar contributes a block of one unknown. */
  function Singles(scalars: seq<nat>): (r: seq<seq<nat>>)
    ensures |r| == |scalars|
    ensures forall c :: 0 <= c < |r| ==> r[c] == [scalars[c]]
  {
    seq(|scalars|, c requires 0 <= c < |scalars| => [scalars[c]])
  }

  lemma OffsetNext(blocks: seq<seq<nat>>, k: nat)
    requires k < |blocks|
    ensures Offset(blocks, k + 1) == Offset(blocks, k) + |blocks[k]|
  {}

  lemma OffsetZero(blocks: seq<seq<nat>>)
    ensures Offset(blocks, 0) == 0
  {}

  function Blocks(varDofs: seq<seq<nat>>, scalars: seq<nat>): seq<seq<nat>> {
    varDofs + Singles(scalars)
  }

  lemma BlocksAt(varDofs: seq<seq<nat>>, scalars: seq<nat>)
    ensures |Blocks(varDofs, scalars)| == |varDofs| + |scalars|
    ensures forall k :: 0 <= k < |varDofs| ==> Blocks(varDofs, scalars)[k] == varDofs[k]
    ensures forall c :: 0 <= c < |scalars| ==> Blocks(varDofs, scalars)[|varDofs| + c] == [scalars[c]]
  {}

  lemma JoinedNothing(blocks: seq<seq<nat>>)
    ensures Joined(blocks[..0]) == []
  {}

  lemma JoinedNext(blocks: seq<seq<nat>>, k: nat)
    requires k < |blocks|
    ensures Joined(blocks[..k + 1]) == Joined(blocks[..k]) + blocks[k]
  {
    assert blocks[..k + 1] == blocks[..k] + [blocks[k]];
    JoinedAppend(blocks[..k], blocks[k]);
  }

  /** The global numbers are gathered variable by variable, then scalar by scalar. */
  method GatherDofs(varDofs: seq<seq<nat>>, scalars: seq<nat>) returns (dofIndices: seq<nat>)
    ensures dofIndices == Joined(Blocks(varDofs, scalars))
  {
    hide Joined;
    ghost var blocks := Blocks(varDofs, scalars);
    BlocksAt(varDofs, scalars);
    hide Blocks;
    dofIndices := [];
    JoinedNothing(blocks);
    for k := 0 to |varDofs|
      invariant dofIndices == Joined(blocks[..k])
    {
      JoinedNext(blocks, k);
      assert blocks[k] == varDofs[k];
      dofIndices := dofIndices + varDofs[k];
    }
    for c := 0 to |scalars|
      invariant dofIndices == Joined(blocks[..|varDofs| + c])
    {
      JoinedNext(blocks, |varDofs| + c);
      assert blocks[|varDofs| + c] == [scalars[c]];
      dofIndices := dofIndices + [scalars[c]];
    }
    assert blocks[..|blocks|] == blocks;
  }

  /** The sub-blocks are located at the running count of unknowns, variables first. */
  method Reposition(varDofs: seq<seq<nat>>, scalars: seq<nat>) returns (first: seq<nat>)
    ensures |first| == |Blocks(varDofs, scalars)|
    ensures forall k :: 0 <= k < |first| ==> first[k] == Offset(Blocks(varDofs, scalars), k)
  {
    hide Offset;
    ghost var blocks := Blocks(varDofs, scalars);
    BlocksAt(varDofs, scalars);
    hide Blocks;
    var nVar := 0;
    first := [];
    OffsetZero(blocks);
    for k := 0 to |varDofs|
      invariant |first| == k && nVar == Offset(blocks, k)
      invariant forall l :: 0 <= l < k ==> first[l] == Offset(blocks, l)
    {
      OffsetNext(blocks, k);
      first := first + [nVar];
      nVar := nVar + |varDofs[k]|;
    }
    for c := 0 to |scalars|
      invariant |first| == |varDofs| + c
      invariant nVar + c == Offset(blocks, |varDofs| + c)
      invariant forall l :: 0 <= l < |first| ==> first[l] == Offset(blocks, l)
    {
      OffsetNext(blocks, |varDofs| + c);
      assert blocks[|varDofs| + c] == [scalars[c]];
      first := first + [nVar + c];
    }
  }
}
