/** The slices of a memory pool as values: how they tile the pool, and the two indexes over them. */
module PoolSpec {
  import opened Common

  const U32_MAX := 0xffff_ffff

  /** The slice every pool starts with. It has no bytes of its own and is never deallocated. */
  const ROOT: nat := 0

  /** A slice: where it starts, how many bytes it has, and how many free bytes follow it. */
  datatype Slice = Slice(offset: nat, size: nat, free: nat) {
    function End(): nat { offset + size + free }
  }

  ghost predicate Lists(ids: seq<nat>, info: map<nat, Slice>) {
    && (forall i | 0 <= i < |ids| :: ids[i] in info)
    && (forall i, j | 0 <= i < j < |ids| :: ids[i] != ids[j])
  }

  /** The slice after the `i`-th starts where the gap of the `i`-th ends. */
  ghost predicate Follows(list: seq<nat>, info: map<nat, Slice>, i: nat)
    requires i + 1 < |list| && Lists(list, info)
  {
    info[list[i]].End() == info[list[i + 1]].offset
  }

  ghost predicate Aligned(list: seq<nat>, info: map<nat, Slice>)
    requires Lists(list, info)
  {
    && (forall i | 0 <= i < |list| :: info[list[i]].offset % 8 == 0 && info[list[i]].size % 8 == 0)
    && (forall i | 0 < i < |list| :: info[list[i]].size > 0)
  }

  ghost predicate Chained(list: seq<nat>, info: map<nat, Slice>)
    requires Lists(list, info)
  {
    && list != [] && list[0] == ROOT && info[ROOT].offset == 0 && info[ROOT].size == 0
    && (forall i: nat {:trigger Follows(list, info, i)} | i + 1 < |list| :: Follows(list, info, i))
    && info[list[|list| - 1]].End() == U32_MAX
  }

  ghost predicate Covers(list: seq<nat>, info: map<nat, Slice>) {
    forall a {:trigger Occurs(list, a)} | a in info :: Occurs(list, a)
  }

  /** The slices in list order, each with its trailing gap, tile the pool exactly. */
  ghost predicate Tiled(list: seq<nat>, info: map<nat, Slice>) {
    Lists(list, info) && Covers(list, info) && Aligned(list, info) && Chained(list, info)
  }

  const EMPTY: map<nat, Slice> := map[ROOT := Slice(0, 0, U32_MAX)]

  function Sizes(list: seq<nat>, info: map<nat, Slice>): nat
    requires forall i | 0 <= i < |list| :: list[i] in info
  {
    if list == [] then 0 else Sizes(list[..|list| - 1], info) + info[list[|list| - 1]].size
  }

  function Gaps(list: seq<nat>, info: map<nat, Slice>): nat
    requires forall i | 0 <= i < |list| :: list[i] in info
  {
    if list == [] then 0 else Gaps(list[..|list| - 1], info) + info[list[|list| - 1]].free
  }

  // ----- placing and removing slices

  function Placed(list: seq<nat>, i: nat, id: nat): seq<nat>
    requires i < |list|
  {
    With(list, i + 1, id)
  }

  /** The new slice takes the front of the gap behind slice `p`, and the rest of that gap. */
  function PlacedInfo(info: map<nat, Slice>, p: nat, id: nat, size: nat): map<nat, Slice>
    requires p in info && size <= info[p].free
  {
    info[p := info[p].(free := 0)][id := Slice(info[p].offset + info[p].size, size, info[p].free - size)]
  }

  /** The slice and its gap go to the gap of the slice before it. */
  function RemovedInfo(info: map<nat, Slice>, p: nat, id: nat): map<nat, Slice>
    requires p in info && id in info
  {
    info[p := info[p].(free := info[p].free + info[id].size + info[id].free)] - {id}
  }

  /** The slice takes the front of the gap and the rest of it as a gap of its own; nothing else changes. */
  lemma PlacedInFront(info: map<nat, Slice>, p: nat, id: nat, size: nat)
    requires p in info && id !in info && size <= info[p].free
    ensures var info' := PlacedInfo(info, p, id, size);
            && info'[id].offset == info[p].offset + info[p].size && info'[id].size == size && info'[id].End() == info[p].End()
            && info'[p].free == 0 && info'[p].offset == info[p].offset && info'[p].size == info[p].size
            && info'.Keys == info.Keys + {id} && forall a | a in info && a != p :: info'[a] == info[a]
  {
  }

  /** The bytes of the slice and of its gap go to the gap before it; nothing else changes. */
  lemma RemovedMerges(info: map<nat, Slice>, p: nat, id: nat)
    requires p in info && id in info && p != id
    ensures var info' := RemovedInfo(info, p, id);
            && info'[p].free == info[p].free + info[id].size + info[id].free
            && info'[p].offset == info[p].offset && info'[p].size == info[p].size
            && info'.Keys == info.Keys - {id} && forall a | a in info && a != p && a != id :: info'[a] == info[a]
  {
  }

  lemma PlacingLists(list: seq<nat>, info: map<nat, Slice>, i: nat, id: nat, size: nat)
    requires Lists(list, info) && Covers(list, info) && i < |list| && id !in info && size <= info[list[i]].free
    ensures var list', info' := Placed(list, i, id), PlacedInfo(info, list[i], id, size);
            && |list'| == |list| + 1 && Lists(list', info') && Covers(list', info')
            && forall k | 0 <= k < |list'| :: list'[k] == if k <= i then list[k] else if k == i + 1 then id else list[k - 1]
  {
    var list', info' := Placed(list, i, id), PlacedInfo(info, list[i], id, size);
    forall a | a in info' ensures Occurs(list', a) {
      if a == id {
        assert list'[i + 1] == a;
      } else {
        assert Occurs(list, a);
        var k :| 0 <= k < |list| && list[k] == a;
        assert list'[if k <= i then k else k + 1] == a;
      }
    }
  }

  lemma PlacingFollows(list: seq<nat>, info: map<nat, Slice>, i: nat, id: nat, size: nat, k: nat)
    requires Lists(list, info) && Covers(list, info) && Chained(list, info)
    requires i < |list| && id !in info && size <= info[list[i]].free && k < |list|
    ensures var list', info' := Placed(list, i, id), PlacedInfo(info, list[i], id, size);
            |list'| == |list| + 1 && Lists(list', info') && Follows(list', info', k)
  {
    PlacingLists(list, info, i, id, size);
    if k < i {
      assert Follows(list, info, k);
    } else if k > i {
      assert Follows(list, info, k - 1);
    }
  }

  lemma PlacingAligns(list: seq<nat>, info: map<nat, Slice>, i: nat, id: nat, size: nat)
    requires Lists(list, info) && Covers(list, info) && Aligned(list, info)
    requires i < |list| && id !in info && 0 < size <= info[list[i]].free && size % 8 == 0
    ensures Lists(Placed(list, i, id), PlacedInfo(info, list[i], id, size))
    ensures Aligned(Placed(list, i, id), PlacedInfo(info, list[i], id, size))
  {
    var list', info' := Placed(list, i, id), PlacedInfo(info, list[i], id, size);
    PlacingLists(list, info, i, id, size);
    assert info'[id].offset % 8 == 0 && info'[id].size % 8 == 0;
    forall k | 0 <= k < |list'|
      ensures info'[list'[k]].offset % 8 == 0 && info'[list'[k]].size % 8 == 0 && (k > 0 ==> info'[list'[k]].size > 0)
    {
      if k != i + 1 { assert list'[k] == list[if k <= i then k else k - 1]; }
    }
  }

  lemma PlacingTiles(list: seq<nat>, info: map<nat, Slice>, i: nat, id: nat, size: nat)
    requires Tiled(list, info) && i < |list| && id !in info && 0 < size <= info[list[i]].free && size % 8 == 0
    ensures Tiled(Placed(list, i, id), PlacedInfo(info, list[i], id, size))
  {
    var list', info' := Placed(list, i, id), PlacedInfo(info, list[i], id, size);
    PlacingLists(list, info, i, id, size);
    PlacingAligns(list, info, i, id, size);
    forall k: nat | k + 1 < |list'| ensures Follows(list', info', k) {
      PlacingFollows(list, info, i, id, size, k);
    }
  }

  lemma RemovingLists(list: seq<nat>, info: map<nat, Slice>, i: nat)
    requires Lists(list, info) && Covers(list, info) && 0 < i < |list|
    ensures var list', info' := Without(list, i), RemovedInfo(info, list[i - 1], list[i]);
            && |list'| == |list| - 1 && Lists(list', info') && Covers(list', info')
            && forall k | 0 <= k < |list'| :: list'[k] == list[if k < i then k else k + 1]
  {
    var list', info' := Without(list, i), RemovedInfo(info, list[i - 1], list[i]);
    forall a | a in info' ensures Occurs(list', a) {
      assert Occurs(list, a);
      var k :| 0 <= k < |list| && list[k] == a;
      assert list'[if k < i then k else k - 1] == a;
    }
  }

  lemma RemovingTiles(list: seq<nat>, info: map<nat, Slice>, i: nat)
    requires Tiled(list, info) && 0 < i < |list|
    ensures Tiled(Without(list, i), RemovedInfo(info, list[i - 1], list[i]))
  {
    var list', info' := Without(list, i), RemovedInfo(info, list[i - 1], list[i]);
    RemovingLists(list, info, i);
    assert Follows(list, info, i - 1);
    forall k: nat | k + 1 < |list'| ensures Follows(list', info', k) {
      if k < i - 1 {
        assert Follows(list, info, k);
      } else {
        assert Follows(list, info, k + 1);
      }
    }
  }

  /** A slice and its gap lie within the pool. */
  lemma {:induction false} EndsFit(list: seq<nat>, info: map<nat, Slice>, i: nat)
    requires Tiled(list, info) && i < |list|
    ensures info[list[i]].End() <= U32_MAX
    decreases |list| - i
  {
    if i + 1 < |list| {
      EndsFit(list, info, i + 1);
      assert Follows(list, info, i);
    }
  }

  /** Slices never overlap: a later slice starts where the earlier one and its gap have ended. */
  lemma {:induction false} NoOverlap(list: seq<nat>, info: map<nat, Slice>, i: nat, j: nat)
    requires Tiled(list, info) && i < j < |list|
    ensures info[list[i]].End() <= info[list[j]].offset
  {
    if i + 1 < j {
      NoOverlap(list, info, i, j - 1);
    }
    assert Follows(list, info, j - 1);
  }

  lemma OffsetsDiffer(list: seq<nat>, info: map<nat, Slice>, a: nat, b: nat)
    requires Tiled(list, info) && a in info && b in info && a != b && info[a].size > 0 && info[b].size > 0
    ensures info[a].offset != info[b].offset
  {
    assert Occurs(list, a) && Occurs(list, b);
    var i :| 0 <= i < |list| && list[i] == a;
    var j :| 0 <= j < |list| && list[j] == b;
    if i < j { NoOverlap(list, info, i, j); } else { NoOverlap(list, info, j, i); }
  }

  /** Every slice but the root has bytes. */
  lemma OnlyRootIsEmpty(list: seq<nat>, info: map<nat, Slice>, a: nat)
    requires Tiled(list, info) && a in info
    ensures info[a].size > 0 <==> a != ROOT
  {
    assert Occurs(list, a);
  }

  /** What is allocated and what is free add up to the pool. */
  lemma {:induction false} SizesAndGaps(list: seq<nat>, info: map<nat, Slice>, n: nat)
    requires Tiled(list, info) && 0 < n <= |list|
    ensures Sizes(list[..n], info) + Gaps(list[..n], info) == info[list[n - 1]].End()
  {
    assert list[..n][..n - 1] == list[..n - 1];
    if n > 1 {
      SizesAndGaps(list, info, n - 1);
      assert Follows(list, info, n - 2);
    }
  }

  lemma Conservation(list: seq<nat>, info: map<nat, Slice>)
    requires Tiled(list, info)
    ensures Sizes(list, info) + Gaps(list, info) == U32_MAX
  {
    SizesAndGaps(list, info, |list|);
    assert list[..|list|] == list;
  }

  lemma {:induction false} SizesAgree(list: seq<nat>, info: map<nat, Slice>, info': map<nat, Slice>)
    requires forall i | 0 <= i < |list| :: list[i] in info && list[i] in info' && info[list[i]].size == info'[list[i]].size
    ensures Sizes(list, info) == Sizes(list, info')
  {
    if list != [] {
      SizesAgree(list[..|list| - 1], info, info');
    }
  }

  lemma {:induction false} SizesConcat(a: seq<nat>, b: seq<nat>, info: map<nat, Slice>)
    requires forall i | 0 <= i < |a| :: a[i] in info
    requires forall i | 0 <= i < |b| :: b[i] in info
    ensures Sizes(a + b, info) == Sizes(a, info) + Sizes(b, info)
  {
    if b == [] {
      assert a + b == a;
    } else {
      assert (a + b)[..|a + b| - 1] == a + b[..|b| - 1];
      SizesConcat(a, b[..|b| - 1], info);
    }
  }

  /** The sum over a sequence with one more element in the middle. */
  lemma SizesWith(a: seq<nat>, id: nat, b: seq<nat>, info: map<nat, Slice>)
    requires id in info && (forall i | 0 <= i < |a| :: a[i] in info) && (forall i | 0 <= i < |b| :: b[i] in info)
    ensures forall i | 0 <= i < |a + b| :: (a + b)[i] in info
    ensures forall i | 0 <= i < |a + [id] + b| :: (a + [id] + b)[i] in info
    ensures Sizes(a + [id] + b, info) == Sizes(a + b, info) + info[id].size
  {
    SizesConcat(a, b, info);
    SizesConcat(a + [id], b, info);
    SizesConcat(a, [id], info);
    assert [id][..0] == [];
    assert Sizes([id], info) == info[id].size;
  }

  lemma SizesPlaced(list: seq<nat>, i: nat, id: nat, info: map<nat, Slice>)
    requires i < |list| && id in info && (forall k | 0 <= k < |list| :: list[k] in info)
    ensures forall k | 0 <= k < |Placed(list, i, id)| :: Placed(list, i, id)[k] in info
    ensures Sizes(Placed(list, i, id), info) == Sizes(list, info) + info[id].size
  {
    assert list == list[..i + 1] + list[i + 1..];
    SizesWith(list[..i + 1], id, list[i + 1..], info);
  }

  lemma PlacingAddsSize(list: seq<nat>, info: map<nat, Slice>, i: nat, id: nat, size: nat)
    requires Lists(list, info) && Covers(list, info) && i < |list| && id !in info && size <= info[list[i]].free
    ensures Lists(Placed(list, i, id), PlacedInfo(info, list[i], id, size))
    ensures Sizes(Placed(list, i, id), PlacedInfo(info, list[i], id, size)) == Sizes(list, info) + size
  {
    var info' := PlacedInfo(info, list[i], id, size);
    PlacingLists(list, info, i, id, size);
    assert Sizes(list, info) == Sizes(list, info') by { SizesAgree(list, info, info'); }
    SizesPlaced(list, i, id, info');
  }

  lemma RemovingDropsSize(list: seq<nat>, info: map<nat, Slice>, i: nat)
    requires Lists(list, info) && Covers(list, info) && 0 < i < |list|
    ensures Lists(Without(list, i), RemovedInfo(info, list[i - 1], list[i]))
    ensures Sizes(Without(list, i), RemovedInfo(info, list[i - 1], list[i])) == Sizes(list, info) - info[list[i]].size
  {
    var rest, info' := Without(list, i), RemovedInfo(info, list[i - 1], list[i]);
    RemovingLists(list, info, i);
    assert list == list[..i] + [list[i]] + list[i + 1..];
    SizesWith(list[..i], list[i], list[i + 1..], info);
    SizesAgree(rest, info, info');
  }
}
