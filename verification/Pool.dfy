/** The slice allocator of a pool: a linear list of slices, an index of the gaps by size and an index of
    the allocated slices by offset. A slice is named by its address. Each tree is held as the sequence
    of its slices in order, and searched by narrowing an interval around an arbitrary pivot. */
module Pool {
  import opened Common
  import opened PoolSpec

  datatype Status = Ok | Fault | MsgSize | Full

  /** `tree` lists exactly the keys of `keys`, once each, by ascending value. */
  ghost predicate Index(tree: seq<nat>, keys: map<nat, nat>) {
    && (forall i | 0 <= i < |tree| :: tree[i] in keys)
    && (forall i, j | 0 <= i < j < |tree| :: tree[i] != tree[j] && keys[tree[i]] <= keys[tree[j]])
    && (forall a {:trigger Occurs(tree, a)} | a in keys :: Occurs(tree, a))
  }

  function FreeKeys(info: map<nat, Slice>): map<nat, nat> {
    map a | a in info && info[a].free > 0 :: info[a].free
  }

  function OffsetKeys(info: map<nat, Slice>): map<nat, nat> {
    map a | a in info && info[a].size > 0 :: info[a].offset
  }

  /** The position of a slice in a sequence that has it. */
  function Position(ids: seq<nat>, a: nat): (i: nat)
    requires a in ids
    ensures i < |ids| && ids[i] == a
  {
    if ids[0] == a then 0 else 1 + Position(ids[1..], a)
  }

  function Erase(tree: seq<nat>, a: nat): seq<nat>
    requires a in tree
  {
    Without(tree, Position(tree, a))
  }

  lemma IndexWithout(tree: seq<nat>, keys: map<nat, nat>, i: nat)
    requires Index(tree, keys) && i < |tree|
    ensures Index(Without(tree, i), keys - {tree[i]})
  {
    var rest := Without(tree, i);
    assert forall k | 0 <= k < |rest| :: rest[k] == tree[if k < i then k else k + 1];
    forall b | b in keys - {tree[i]} ensures Occurs(rest, b) {
      assert Occurs(tree, b);
      var k :| 0 <= k < |tree| && tree[k] == b;
      assert rest[if k < i then k else k - 1] == b;
    }
  }

  lemma ErasedIndex(tree: seq<nat>, keys: map<nat, nat>, a: nat)
    requires Index(tree, keys) && a in keys
    ensures a in tree && Index(Erase(tree, a), keys - {a})
  {
    assert Occurs(tree, a);
    IndexWithout(tree, keys, Position(tree, a));
  }

  lemma InsertedIndex(tree: seq<nat>, keys: map<nat, nat>, slot: nat, a: nat, k: nat)
    requires Index(tree, keys) && a !in keys && slot <= |tree|
    requires forall i | 0 <= i < slot :: keys[tree[i]] <= k
    requires forall i | slot <= i < |tree| :: k <= keys[tree[i]]
    ensures Index(With(tree, slot, a), keys[a := k])
  {
    var tree' := With(tree, slot, a);
    assert forall i | 0 <= i < |tree'| :: tree'[i] == if i < slot then tree[i] else if i == slot then a else tree[i - 1];
    forall b | b in keys[a := k] ensures Occurs(tree', b) {
      if b == a {
        assert tree'[slot] == b;
      } else {
        assert Occurs(tree, b);
        var i :| 0 <= i < |tree| && tree[i] == b;
        assert tree'[if i < slot then i else i + 1] == b;
      }
    }
  }

  /** Links a slice into a tree, along an arbitrary path down the tree. */
  method Link(tree: seq<nat>, keys: map<nat, nat>, a: nat, k: nat) returns (tree': seq<nat>)
    requires Index(tree, keys) && a !in keys
    ensures Index(tree', keys[a := k])
  {
    var lo, hi := 0, |tree|;
    while lo < hi
      invariant 0 <= lo <= hi <= |tree|
      invariant forall i | 0 <= i < lo :: keys[tree[i]] <= k
      invariant forall i | hi <= i < |tree| :: k <= keys[tree[i]]
    {
      var n :| lo <= n < hi;
      if k < keys[tree[n]] {
        hi := n;
      } else {
        lo := n + 1;
      }
    }
    InsertedIndex(tree, keys, lo, a, k);
    tree' := With(tree, lo, a);
  }

  /** A size as the caller can pass it, in 64 bits. */
  type Size = n: nat | n < 0x1_0000_0000_0000_0000

  /** Rounds up to a multiple of 8 in 64-bit arithmetic; a sum that wraps gives 0. */
  function Align8(size: Size): (r: nat)
    ensures r % 8 == 0
    ensures if size + 7 < 0x1_0000_0000_0000_0000 then size <= r < size + 8 else r == 0
  {
    (size + 7) % 0x1_0000_0000_0000_0000 / 8 * 8
  }

  /** A gap that holds `size` bytes, and no larger than any other such gap. */
  ghost predicate BestFit(info: map<nat, Slice>, p: nat, size: nat) {
    && p in info && size <= info[p].free
    && forall a | a in info && size <= info[a].free :: info[p].free <= info[a].free
  }

  /** In the index of gaps, the first gap that is large enough is a best fit. */
  lemma FirstFitIsBest(tree: seq<nat>, info: map<nat, Slice>, hi: nat, size: nat)
    requires Index(tree, FreeKeys(info)) && hi <= |tree| && 0 < size
    requires forall i | 0 <= i < hi :: info[tree[i]].free < size
    requires hi < |tree| ==> size <= info[tree[hi]].free
    ensures if hi == |tree| then forall a | a in info :: info[a].free < size else BestFit(info, tree[hi], size)
  {
    forall a | a in info && size <= info[a].free ensures hi < |tree| && info[tree[hi]].free <= info[a].free {
      assert a in FreeKeys(info);
      assert Occurs(tree, a);
      var i :| 0 <= i < |tree| && tree[i] == a;
      assert hi <= i;
      assert FreeKeys(info)[tree[hi]] <= FreeKeys(info)[tree[i]];
    }
  }

  /** The range check a slice has to pass before it is linked. */
  predicate InRange(offset: nat, size: nat, free: nat) {
    offset <= U32_MAX && size <= U32_MAX && free <= U32_MAX && offset + size + free <= U32_MAX
  }

  lemma RemovingKeeps(list: seq<nat>, info: map<nat, Slice>, i: nat)
    requires Tiled(list, info) && 0 < i < |list|
    ensures var list', info' := Without(list, i), RemovedInfo(info, list[i - 1], list[i]);
            Tiled(list', info') && Sizes(list', info') == Sizes(list, info) - info[list[i]].size
  {
    RemovingTiles(list, info, i);
    RemovingDropsSize(list, info, i);
  }

  lemma PlacedKeys(info: map<nat, Slice>, p: nat, id: nat, size: nat)
    requires p in info && id !in info && 0 < size <= info[p].free
    ensures var info' := PlacedInfo(info, p, id, size);
            var free := info[p].free - size;
            && FreeKeys(info') == (if free > 0 then FreeKeys(info)[id := free] else FreeKeys(info)) - {p}
            && OffsetKeys(info') == OffsetKeys(info)[id := info[p].offset + info[p].size]
  {
  }

  lemma RemovedKeys(info: map<nat, Slice>, p: nat, id: nat)
    requires p in info && id in info && p != id && info[id].size > 0
    ensures var info' := RemovedInfo(info, p, id);
            && FreeKeys(info') == (FreeKeys(info) - {id} - {p})[p := info'[p].free]
            && OffsetKeys(info') == OffsetKeys(info) - {id}
  {
  }

  /** Takes a slice out of a tree that may hold it. */
  method Unlink(tree: seq<nat>, ghost keys: map<nat, nat>, a: nat, linked: bool) returns (tree': seq<nat>)
    requires Index(tree, keys) && linked == (a in keys)
    ensures Index(tree', keys - {a})
  {
    if linked {
      ErasedIndex(tree, keys, a);
      tree' := Erase(tree, a);
    } else {
      assert keys - {a} == keys;
      tree' := tree;
    }
  }

  /** The slices tile the pool, both indexes hold what they must, and the size is the sum of sizes. */
  ghost predicate Consistent(list: seq<nat>, info: map<nat, Slice>, byFree: seq<nat>, byOffset: seq<nat>, size: nat) {
    && Tiled(list, info)
    && Index(byFree, FreeKeys(info)) && Index(byOffset, OffsetKeys(info))
    && size == Sizes(list, info)
  }

  lemma PlacingKeeps(list: seq<nat>, info: map<nat, Slice>, i: nat, id: nat, size: nat,
                     byFree: seq<nat>, byOffset: seq<nat>, total: nat)
    requires Tiled(list, info) && i < |list| && id !in info && 0 < size <= info[list[i]].free && size % 8 == 0
    requires Index(byFree, FreeKeys(PlacedInfo(info, list[i], id, size))) && total == Sizes(list, info)
    requires Index(byOffset, OffsetKeys(PlacedInfo(info, list[i], id, size)))
    ensures Consistent(Placed(list, i, id), PlacedInfo(info, list[i], id, size), byFree, byOffset, total + size)
    ensures InRange(info[list[i]].offset + info[list[i]].size, size, info[list[i]].free - size)
  {
    EndsFit(list, info, i);
    PlacingTiles(list, info, i, id, size);
    PlacingAddsSize(list, info, i, id, size);
  }

  class Pool {
    var allocatedSize: nat
    var list: seq<nat>
    var info: map<nat, Slice>
    var freeTree: seq<nat>
    var offsetTree: seq<nat>
    var published: set<nat>

    ghost predicate Valid()
      reads this
    {
      Consistent(list, info, freeTree, offsetTree, allocatedSize)
    }

    predicate Allocated(id: nat)
      reads this
    {
      id in info && id != ROOT
    }

    constructor ()
      ensures Valid() && list == [ROOT] && info == EMPTY && published == {}
    {
      allocatedSize, list, info := 0, [ROOT], EMPTY;
      freeTree, offsetTree, published := [ROOT], [], {};
      new;
      assert list[0] == ROOT && freeTree[0] == ROOT;
      assert Sizes(list, info) == 0;
    }

    /** The smallest gap that holds `size` bytes; none only if no gap does. */
    method FindFree(size: nat) returns (best: Option<nat>)
      requires Valid() && 0 < size
      ensures best.Some? ==> BestFit(info, best.value, size)
      ensures best.None? ==> forall a | a in info :: info[a].free < size
    {
      best := None;
      var lo, hi := 0, |freeTree|;
      while lo < hi
        invariant 0 <= lo <= hi <= |freeTree|
        invariant forall i | 0 <= i < lo :: info[freeTree[i]].free < size
        invariant forall i | hi <= i < |freeTree| :: size < info[freeTree[i]].free
        invariant best == if hi == |freeTree| then None else Some(freeTree[hi])
      {
        var n :| lo <= n < hi;
        var ps := freeTree[n];
        if size < info[ps].free {
          best, hi := Some(ps), n;
        } else if size > info[ps].free {
          lo := n + 1;
        } else {
          return Some(ps);
        }
      }
      FirstFitIsBest(freeTree, info, hi, size);
    }

    /** The allocated slice at an offset, if it is published. */
    method FindPublished(offset: nat) returns (found: Option<nat>)
      requires Valid()
      ensures found.Some? ==> Allocated(found.value) && info[found.value].offset == offset && found.value in published
      ensures found.None? ==> forall a | Allocated(a) && info[a].offset == offset :: a !in published
    {
      var lo, hi := 0, |offsetTree|;
      while lo < hi
        invariant 0 <= lo <= hi <= |offsetTree|
        invariant forall i | 0 <= i < lo :: info[offsetTree[i]].offset < offset
        invariant forall i | hi <= i < |offsetTree| :: offset < info[offsetTree[i]].offset
      {
        var n :| lo <= n < hi;
        var ps := offsetTree[n];
        if offset < info[ps].offset {
          hi := n;
        } else if offset > info[ps].offset {
          lo := n + 1;
        } else {
          forall a | Allocated(a) && info[a].offset == offset ensures a == ps {
            OnlyRootIsEmpty(list, info, a);
            if a != ps { OffsetsDiffer(list, info, a, ps); }
          }
          OnlyRootIsEmpty(list, info, ps);
          return if ps in published then Some(ps) else None;
        }
      }
      forall a | Allocated(a) ensures info[a].offset != offset {
        OnlyRootIsEmpty(list, info, a);
        assert a in OffsetKeys(info);
        assert Occurs(offsetTree, a);
      }
      return None;
    }

    /** The two indexes once a new slice is linked behind slice `p`. */
    method LinkSlice(p: nat, id: nat, size: nat) returns (byFree: seq<nat>, byOffset: seq<nat>)
      requires Index(freeTree, FreeKeys(info)) && Index(offsetTree, OffsetKeys(info))
      requires p in info && id !in info && 0 < size <= info[p].free
      ensures Index(byFree, FreeKeys(PlacedInfo(info, p, id, size)))
      ensures Index(byOffset, OffsetKeys(PlacedInfo(info, p, id, size)))
    {
      var keys, free := FreeKeys(info), info[p].free - size;
      byFree := freeTree;
      if free > 0 {
        byFree := Link(byFree, keys, id, free);
        keys := keys[id := free];
      }
      byOffset := Link(offsetTree, OffsetKeys(info), id, info[p].offset + info[p].size);
      byFree := Unlink(byFree, keys, p, true);
      PlacedKeys(info, p, id, size);
    }

    /** The two indexes once a slice is unlinked and slice `p` has got its gap. */
    method UnlinkSlice(p: nat, id: nat) returns (byFree: seq<nat>, byOffset: seq<nat>)
      requires Index(freeTree, FreeKeys(info)) && Index(offsetTree, OffsetKeys(info))
      requires p in info && id in info && p != id && info[id].size > 0
      ensures Index(byFree, FreeKeys(RemovedInfo(info, p, id)))
      ensures Index(byOffset, OffsetKeys(RemovedInfo(info, p, id)))
    {
      var keys := FreeKeys(info);
      byOffset := Unlink(offsetTree, OffsetKeys(info), id, true);
      byFree := Unlink(freeTree, keys, id, info[id].free > 0);
      byFree := Unlink(byFree, keys - {id}, p, info[p].free > 0);
      byFree := Link(byFree, keys - {id} - {p}, p, info[p].free + info[id].size + info[id].free);
      RemovedKeys(info, p, id);
    }

    method Store(list': seq<nat>, info': map<nat, Slice>, byFree: seq<nat>, byOffset: seq<nat>, size: nat)
      requires Consistent(list', info', byFree, byOffset, size)
      modifies this
      ensures Valid() && list == list' && info == info' && allocatedSize == size && published == old(published)
    {
      list, info, freeTree, offsetTree, allocatedSize := list', info', byFree, byOffset, size;
    }

    /** Links a new slice behind the `i`-th one. The range check never rejects a gap that was found. */
    method Place(i: nat, id: nat, size: nat)
      requires Valid() && i < |list| && id !in info && 0 < size <= info[list[i]].free && size % 8 == 0
      modifies this
      ensures Valid() && published == old(published)
      ensures list == Placed(old(list), i, id) && info == PlacedInfo(old(info), old(list)[i], id, size)
      ensures InRange(info[id].offset, info[id].size, info[id].free) && allocatedSize == old(allocatedSize) + size
    {
      var p := list[i];
      var byFree, byOffset := LinkSlice(p, id, size);
      PlacingKeeps(list, info, i, id, size, byFree, byOffset, allocatedSize);
      Store(Placed(list, i, id), PlacedInfo(info, p, id, size), byFree, byOffset, allocatedSize + size);
    }

    /** Unlinks the `i`-th slice and merges it into the gap before it. */
    method Merge(i: nat)
      requires Valid() && 0 < i < |list|
      modifies this
      ensures Valid() && published == old(published)
      ensures list == Without(old(list), i) && info == RemovedInfo(old(info), old(list)[i - 1], old(list)[i])
      ensures allocatedSize == old(allocatedSize) - old(info)[old(list)[i]].size
    {
      RemovingKeeps(list, info, i);
      var list', info' := Without(list, i), RemovedInfo(info, list[i - 1], list[i]);
      var size := info[list[i]].size;
      freeTree, offsetTree := UnlinkSlice(list[i - 1], list[i]);
      allocatedSize, list, info := allocatedSize - size, list', info';
    }

    /** Puts a new slice at the front of the smallest gap that is large enough. It fails exactly if the slice
        is in use already, if the size is 0 or too large, or if no gap is large enough. */
    method Alloc(id: nat, size: Size) returns (r: Status, ghost at: nat)
      requires Valid() && id != ROOT
      modifies this
      ensures Valid()
      ensures r == Fault <==> old(Allocated(id))
      ensures r == MsgSize <==> !old(Allocated(id)) && (size == 0 || size > 0xffff_fff8)
      ensures r == Full <==> !old(Allocated(id)) && 0 < size <= 0xffff_fff8
                             && forall a | a in old(info) :: old(info)[a].free < Align8(size)
      ensures r != Ok ==> unchanged(this)
      ensures r == Ok ==>
                && at < |old(list)| && BestFit(old(info), old(list)[at], Align8(size))
                && list == Placed(old(list), at, id) && published == old(published)
                && info == PlacedInfo(old(info), old(list)[at], id, Align8(size))
      ensures r == Ok ==>
                && size <= info[id].size < size + 8 && info[id].size % 8 == 0
                && allocatedSize == old(allocatedSize) + info[id].size
    {
      at := 0;
      if id in info { return Fault, 0; }
      var sliceSize := Align8(size);
      if sliceSize == 0 || sliceSize > U32_MAX { return MsgSize, 0; }
      var best := FindFree(sliceSize);
      if best.None? { return Full, 0; }
      assert Occurs(list, best.value);
      var i := Position(list, best.value);
      Place(i, id, sliceSize);
      r, at := Ok, i;
    }

    /** Gives a slice and its gap to the slice before it. A published slice is refused, and a slice that
        is not allocated is left alone. */
    method Dealloc(id: nat) returns (r: Status, ghost at: nat)
      requires Valid() && id != ROOT
      modifies this
      ensures Valid()
      ensures r == (if id in old(published) then Fault else Ok)
      ensures r == Fault || !old(Allocated(id)) ==> unchanged(this)
      ensures r == Ok && old(Allocated(id)) ==>
                && 0 < at < |old(list)| && old(list)[at] == id
                && list == Without(old(list), at) && published == old(published)
                && info == RemovedInfo(old(info), old(list)[at - 1], id)
      ensures r == Ok && old(Allocated(id)) ==> allocatedSize == old(allocatedSize) - old(info)[id].size
    {
      at := 0;
      if id in published { return Fault, 0; }
      if id !in info { return Ok, 0; }
      assert Occurs(list, id);
      var i := Position(list, id);
      Merge(i);
      r, at := Ok, i;
    }

    method Publish(id: nat)
      modifies this`published
      ensures published == old(published) + {id}
    {
      published := published + {id};
    }

    method Unpublish(id: nat)
      modifies this`published
      ensures published == old(published) - {id}
    {
      published := published - {id};
    }

    /** Unpublishes every published slice of the pool and hands them over, last one first. */
    method Flush() returns (flushed: seq<nat>)
      requires Valid()
      modifies this`published
      ensures Valid() && published == old(published) - info.Keys
      ensures forall a :: a in flushed <==> a in old(published) && a in info
      ensures forall i, j | 0 <= i < j < |flushed| :: flushed[i] != flushed[j]
    {
      flushed := [];
      var i := 0;
      while i < |list|
        invariant i <= |list|
        invariant forall a :: a in flushed <==> a in old(published) && a in list[..i]
        invariant forall k, j | 0 <= k < j < |flushed| :: flushed[k] != flushed[j]
        invariant forall a :: a in published <==> a in old(published) && a !in list[..i]
      {
        assert list[..i + 1] == list[..i] + [list[i]];
        if list[i] in published {
          published := published - {list[i]};
          flushed := [list[i]] + flushed;
        }
        i := i + 1;
      }
      assert list[..|list|] == list;
      assert forall a | a in info :: Occurs(list, a);
    }

    /** Freeing every allocated slice, in whatever order, leaves the pool as it was created. */
    method FreeAll(order: seq<nat>)
      requires Valid() && forall a | a in order :: a != ROOT && a !in published
      requires forall a | Allocated(a) :: a in order
      modifies this
      ensures Valid() && list == [ROOT] && info == EMPTY && freeTree == [ROOT] && offsetTree == []
      ensures allocatedSize == 0 && published == old(published)
    {
      assert forall a | a in info && a != ROOT :: Allocated(a);
      for k := 0 to |order|
        invariant Valid() && published == old(published)
        invariant forall a | a in info && a != ROOT :: a in order[k..]
      {
        assert order[k] in order && order[k..] == [order[k]] + order[k + 1..];
        var r, at := Dealloc(order[k]);
      }
      OnlyRootLeft(list, info, freeTree, offsetTree);
    }
  }

  /** With no slice allocated, the pool is the single root slice. */
  lemma OnlyRootLeft(list: seq<nat>, info: map<nat, Slice>, byFree: seq<nat>, byOffset: seq<nat>)
    requires Tiled(list, info) && Index(byFree, FreeKeys(info)) && Index(byOffset, OffsetKeys(info))
    requires forall a | a in info :: a == ROOT
    ensures list == [ROOT] && info == EMPTY && byFree == [ROOT] && byOffset == [] && Sizes(list, info) == 0
  {
    assert info == map[ROOT := info[ROOT]];
    FirstTwo(list, info.Keys);
    FirstTwo(byFree, FreeKeys(info).Keys);
    FirstTwo(byOffset, OffsetKeys(info).Keys);
    assert ROOT in FreeKeys(info) && Occurs(byFree, ROOT);
    assert list == [ROOT] && list[..0] == [];
  }

  lemma FirstTwo(ids: seq<nat>, all: set<nat>)
    requires forall i | 0 <= i < |ids| :: ids[i] in all
    requires forall i, j | 0 <= i < j < |ids| :: ids[i] != ids[j]
    ensures |ids| > 0 ==> ids[0] in all
    ensures |ids| > 1 ==> ids[1] in all && ids[0] != ids[1]
  {
  }
}
