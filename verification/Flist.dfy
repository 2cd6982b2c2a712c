/** Fixed lists: a chain of fixed-size batches that stands for one flat array. */
module Flist {
  const BATCH: nat := 1024

  /** One allocation: element slots and, behind them, possibly a slot for the link to the next batch. */
  class Batch {
    const slots: nat
    const hasLink: bool
    var next: Batch?
    var live: bool

    constructor (slots: nat, hasLink: bool)
      ensures this.slots == slots && this.hasLink == hasLink && next == null && live
    {
      this.slots, this.hasLink, next, live := slots, hasLink, null, true;
    }
  }

  ghost function At(bs: seq<Batch>, i: nat): Batch? {
    if i < |bs| then bs[i] else null
  }

  /** The batches, in order, are alive, distinct and chained from `head`. */
  ghost predicate Chained(head: Batch?, bs: seq<Batch>)
    reads bs
  {
    && head == At(bs, 0)
    && (forall i, j | 0 <= i < j < |bs| :: bs[i] != bs[j])
    && (forall i: nat | i < |bs| :: bs[i].live && bs[i].next == At(bs, i + 1))
  }

  ghost predicate FullBatch(b: Batch) {
    b.slots == BATCH && b.hasLink
  }

  /** Exactly the batches a list of `n` elements takes: full ones, and the rest in one without a link. */
  ghost predicate Complete(bs: seq<Batch>, n: nat) {
    && |bs| == (n + BATCH - 1) / BATCH
    && (forall i | 0 <= i < n / BATCH :: FullBatch(bs[i]))
    && (n % BATCH != 0 ==> bs[|bs| - 1].slots == n % BATCH)
  }

  /** What is left of a list of `n` elements when an allocation fails: fewer batches, all full. */
  ghost predicate Partial(bs: seq<Batch>, n: nat) {
    |bs| <= n / BATCH && forall i | 0 <= i < |bs| :: FullBatch(bs[i])
  }

  /** The flat array: slot `i` is slot `i % BATCH` of batch `i / BATCH`. */
  ghost function Slots(bs: seq<Batch>, n: nat): seq<(Batch, nat)>
    requires Complete(bs, n)
  {
    seq(n, i requires 0 <= i < n => (bs[i / BATCH], i % BATCH))
  }

  /** Every slot of the flat array is a slot of its batch, and no slot occurs twice. */
  lemma SlotsAreDistinct(bs: seq<Batch>, n: nat, i: nat, j: nat)
    requires Complete(bs, n) && i < j < n
    requires forall k, l | 0 <= k < l < |bs| :: bs[k] != bs[l]
    ensures Slots(bs, n)[i] != Slots(bs, n)[j]
    ensures Slots(bs, n)[i].1 < Slots(bs, n)[i].0.slots && Slots(bs, n)[j].1 < Slots(bs, n)[j].0.slots
  {
    assert i / BATCH == j / BATCH ==> i % BATCH != j % BATCH;
  }

  /** A chain is its first batch, and the chain its link leads to. */
  lemma ChainedCons(head: Batch, bs: seq<Batch>)
    requires head !in bs
    ensures Chained(head, [head] + bs) <==> head.live && Chained(head.next, bs)
  {
    var all := [head] + bs;
    assert forall i: nat | i < |bs| :: bs[i] == all[i + 1] && At(bs, i) == At(all, i + 1);
    assert At(bs, |bs|) == At(all, |bs| + 1) && At(all, 1) == At(bs, 0) && all[0] == head;
    if Chained(head, all) {
      forall i: nat | i < |bs| ensures bs[i].live && bs[i].next == At(bs, i + 1) {
        assert all[i + 1].next == At(all, i + 2);
      }
    }
    if head.live && Chained(head.next, bs) {
      forall i: nat | i < |all| ensures all[i].live && all[i].next == At(all, i + 1) {
        if i > 0 { assert all[i] == bs[i - 1] && bs[i - 1].next == At(bs, i); }
      }
    }
  }

  /** Releases one allocation, which must be alive. */
  method Kfree(b: Batch?)
    requires b != null ==> b.live
    modifies if b == null then {} else {b}
    ensures b != null ==> !b.live
  {
    if b != null {
      b.live := false;
    }
  }

  /** Reads the link of the first batch of a chain, then frees that batch. */
  method FreeFirst(e: Batch, ghost rest: seq<Batch>) returns (next: Batch?)
    requires Chained(e, [e] + rest) && e !in rest && e.hasLink
    modifies e
    ensures Chained(next, rest) && !e.live
  {
    ChainedCons(e, rest);
    next := e.next;
    Kfree(e);
  }

  /** Follows the links of a chain in which the first `full` batches have one, for as long as a full
      batch is due and there is one, and frees what it meets and what it ends at. */
  method FreeChain(list: Batch?, n: nat, ghost bs: seq<Batch>, ghost full: nat)
    requires Chained(list, bs) && full * BATCH <= n < (full + 1) * BATCH && |bs| <= full + 1
    requires forall i | 0 <= i < |bs| && i < full :: bs[i].hasLink
    modifies bs
    ensures forall i | 0 <= i < |bs| :: !bs[i].live
  {
    var e, left := list, n;
    ghost var k := 0;
    while e != null && left >= BATCH
      invariant k <= |bs| && left == n - k * BATCH
      invariant Chained(e, bs[k..])
      invariant forall i | 0 <= i < k :: !bs[i].live
    {
      assert e == bs[k] && bs[k..] == [bs[k]] + bs[k + 1..];
      assert forall i | k < i < |bs| :: bs[i] != bs[k];
      e := FreeFirst(e, bs[k + 1..]);
      left := left - BATCH;
      k := k + 1;
    }
    assert e != null ==> e == bs[k] && k + 1 == |bs|;
    Kfree(e);
  }

  /** Frees a whole list, or what there is of one, releasing every batch once. */
  method Free(list: Batch?, n: nat, ghost bs: seq<Batch>)
    requires Chained(list, bs) && (Complete(bs, n) || Partial(bs, n))
    modifies bs
    ensures forall b | b in bs :: !b.live
  {
    FreeChain(list, n, bs, n / BATCH);
  }

  /** Allocates a list of `n` elements when `budget` more allocations succeed. On success the batches
      are complete; on failure, which is a null list although `n` is not 0, all of them were released. */
  method New(n: nat, budget: nat) returns (list: Batch?, ghost bs: seq<Batch>)
    ensures fresh(bs)
    ensures budget >= (n + BATCH - 1) / BATCH ==> Chained(list, bs) && Complete(bs, n)
    ensures budget < (n + BATCH - 1) / BATCH ==> list == null && (forall b | b in bs :: !b.live)
  {
    list, bs := null, [];
    var last: Batch? := null;
    var remaining, left := n, budget;
    while remaining >= BATCH
      invariant fresh(bs) && Chained(list, bs) && Partial(bs, n)
      invariant last == if bs == [] then null else bs[|bs| - 1]
      invariant remaining == n - |bs| * BATCH && left == budget - |bs|
    {
      if left == 0 {
        Free(list, n, bs);
        return null, bs;
      }
      var e := new Batch(BATCH, true);
      Append(list, last, e, bs);
      list, last, bs := if list == null then e else list, e, bs + [e];
      remaining, left := remaining - BATCH, left - 1;
    }
    if remaining > 0 {
      if left == 0 {
        Free(list, n, bs);
        return null, bs;
      }
      var e := new Batch(remaining, false);
      Append(list, last, e, bs);
      list, bs := if list == null then e else list, bs + [e];
    }
  }

  /** Writes a new batch into the link slot of the last one, if there is one. */
  method Append(list: Batch?, last: Batch?, e: Batch, ghost bs: seq<Batch>)
    requires Chained(list, bs) && last == (if bs == [] then null else bs[|bs| - 1])
    requires last != null ==> last.hasLink
    requires e !in bs && e.live && e.next == null
    modifies if last == null then {} else {last}
    ensures Chained(if list == null then e else list, bs + [e])
  {
    if last != null {
      last.next := e;
    }
  }

  // ----- lists whose first batch is embedded in another object

  /** The number of array elements to reserve for the embedded batch. */
  function InlineSlots(n: nat): nat {
    if n < BATCH then n else BATCH + 1
  }

  ghost predicate Inline(head: Batch, n: nat)
    reads head
  {
    && head.live && head.hasLink == (n >= BATCH) && (!head.hasLink ==> head.next == null)
    && InlineSlots(n) == head.slots + (if head.hasLink then 1 else 0)
  }

  /** `bs` is what is allocated beside the embedded batch: nothing, or all that does not fit it. */
  ghost predicate Beside(head: Batch, n: nat, bs: seq<Batch>)
    reads head, bs
  {
    && head !in bs && Chained(head.next, bs)
    && (bs == [] || (n > BATCH && Complete(bs, n - BATCH)))
  }

  method InitInline(head: Batch, n: nat)
    requires Inline(head, n)
    modifies head`next
    ensures Inline(head, n) && Beside(head, n, [])
  {
    if n >= BATCH {
      head.next := null;
    }
  }

  lemma CompleteCons(head: Batch, bs: seq<Batch>, n: nat)
    requires FullBatch(head) && n >= BATCH
    ensures Complete([head] + bs, n) <==> Complete(bs, n - BATCH)
  {
    var all := [head] + bs;
    assert forall i | 0 <= i < |bs| :: bs[i] == all[i + 1];
    assert (n - BATCH) / BATCH == n / BATCH - 1 && (n - BATCH) % BATCH == n % BATCH;
    if Complete(all, n) {
      forall i | 0 <= i < (n - BATCH) / BATCH ensures FullBatch(bs[i]) { assert FullBatch(all[i + 1]); }
    }
    if Complete(bs, n - BATCH) {
      forall i | 0 <= i < n / BATCH ensures FullBatch(all[i]) { assert i > 0 ==> FullBatch(bs[i - 1]); }
    }
  }

  /** Allocates what does not fit the embedded batch. */
  method Populate(head: Batch, n: nat, budget: nat) returns (ok: bool, ghost bs: seq<Batch>)
    requires Inline(head, n) && Beside(head, n, [])
    modifies head`next
    ensures fresh(bs) && Inline(head, n)
    ensures ok <==> budget >= (n - 1) / BATCH
    ensures ok ==> Beside(head, n, bs) && (n > 0 ==> Chained(head, [head] + bs) && Complete([head] + bs, n))
    ensures !ok ==> Beside(head, n, []) && (forall b | b in bs :: !b.live)
  {
    bs := [];
    if n > BATCH {
      var rest;
      rest, bs := New(n - BATCH, budget);
      head.next := rest;
      if rest == null { return false, bs; }
      CompleteCons(head, bs, n);
    }
    ChainedCons(head, bs);
    return true, bs;
  }

  /** Releases what was allocated beside the embedded batch. It may be called on a list that was only
      initialised, that could not be populated, or that was released before. */
  method DeinitInline(head: Batch, n: nat, ghost bs: seq<Batch>)
    requires Inline(head, n) && Beside(head, n, bs)
    modifies head`next, bs
    ensures Inline(head, n) && Beside(head, n, []) && (forall b | b in bs :: !b.live)
  {
    if n >= BATCH {
      Free(head.next, n - BATCH, bs);
      head.next := null;
    }
  }

  // ----- iteration

  /** Advances an iterator by one slot. At the end of a batch it follows the link, which must exist. */
  method Next(e: Batch, idx: nat, pos: nat) returns (e': Batch?, idx': nat, pos': nat)
    requires (pos + 1) % BATCH == 0 ==> e.hasLink && idx + 1 == e.slots
    ensures pos' == pos + 1
    ensures if (pos + 1) % BATCH == 0 then e' == e.next && idx' == 0 else e' == e && idx' == idx + 1
  {
    pos' := pos + 1;
    if pos' % BATCH != 0 {
      e', idx' := e, idx + 1;
    } else {
      e', idx' := e.next, 0;
    }
  }

  lemma StepInBatch(pos: nat)
    ensures if (pos + 1) % BATCH == 0
            then (pos + 1) / BATCH == pos / BATCH + 1 && pos % BATCH + 1 == BATCH
            else (pos + 1) / BATCH == pos / BATCH && (pos + 1) % BATCH == pos % BATCH + 1
  {
  }

  /** A batch whose last slot is passed within the list has a link, and it leads to the next batch. */
  lemma LinkAt(bs: seq<Batch>, n: nat, pos: nat)
    requires Complete(bs, n) && pos < n
    ensures pos / BATCH < |bs|
    ensures (pos + 1) % BATCH == 0 ==> FullBatch(bs[pos / BATCH])
    ensures pos + 1 < n ==> (pos + 1) / BATCH < |bs|
  {
    assert (pos + 1) % BATCH == 0 ==> pos / BATCH < n / BATCH;
  }

  /** Iterating slot by slot visits the flat array in order. */
  method Iterate(list: Batch?, n: nat, ghost bs: seq<Batch>) returns (visited: seq<(Batch, nat)>)
    requires Chained(list, bs) && Complete(bs, n)
    ensures visited == Slots(bs, n)
  {
    visited := [];
    ghost var all := Slots(bs, n);
    var e, idx, pos := list, 0, 0;
    while pos < n
      invariant pos <= n && visited == all[..pos]
      invariant pos < n ==> pos / BATCH < |bs| && e == bs[pos / BATCH] && idx == pos % BATCH
    {
      visited := visited + [(e, idx)];
      StepInBatch(pos);
      LinkAt(bs, n, pos);
      assert all[pos] == (bs[pos / BATCH], pos % BATCH);
      e, idx, pos := Next(e, idx, pos);
    }
  }

  /** Advances a batch-wise walk: the size of the next batch, 0 at the end. */
  method Walk(list: Batch?, n: nat, e: Batch?, pos: nat) returns (z: nat, e': Batch?, pos': nat)
    requires 0 < pos < n ==> e != null && e.hasLink
    ensures z == if pos < n then (if n - pos < BATCH then n - pos else BATCH) else 0
    ensures pos' == pos + z
    ensures e' == if pos >= n then e else if pos == 0 then list else e.next
  {
    z, e', pos' := 0, e, pos;
    if pos < n {
      z := n - pos;
      if z > BATCH { z := BATCH; }
      if pos == 0 {
        e' := list;
      } else {
        e' := e.next;
      }
      pos' := pos + z;
    }
  }

  function BatchSlots(b: Batch, z: nat): seq<(Batch, nat)> {
    seq(z, j requires 0 <= j < z => (b, j))
  }

  lemma SlotsOfBatch(bs: seq<Batch>, n: nat, k: nat, z: nat)
    requires Complete(bs, n) && k < |bs| && z <= BATCH && k * BATCH + z <= n
    ensures Slots(bs, n)[..k * BATCH + z] == Slots(bs, n)[..k * BATCH] + BatchSlots(bs[k], z)
  {
    forall j | 0 <= j < z && k * BATCH + j < n ensures Slots(bs, n)[k * BATCH + j] == (bs[k], j) {
    }
  }

  /** The `k`-th batch exists while elements are left, and has a link if more follow it. */
  lemma BatchAt(bs: seq<Batch>, n: nat, k: nat)
    requires Complete(bs, n)
    ensures k * BATCH < n <==> k < |bs|
    ensures (k + 1) * BATCH <= n ==> FullBatch(bs[k])
  {
  }

  /** Walking batch by batch visits the same flat array, in as many pieces as there are batches. */
  method WalkAll(list: Batch?, n: nat, ghost bs: seq<Batch>) returns (visited: seq<(Batch, nat)>, pieces: nat)
    requires Chained(list, bs) && Complete(bs, n)
    ensures visited == Slots(bs, n) && pieces == |bs|
  {
    visited, pieces := [], 0;
    var e: Batch?, pos := null, 0;
    while pos < n
      invariant pieces <= |bs| && pos == (if pieces * BATCH < n then pieces * BATCH else n)
      invariant pieces > 0 ==> e == bs[pieces - 1]
      invariant visited == Slots(bs, n)[..pos]
      invariant pos == n ==> pieces == |bs|
    {
      ghost var k := pieces;
      BatchAt(bs, n, k);
      assert k > 0 ==> FullBatch(bs[k - 1]) by { if k > 0 { BatchAt(bs, n, k - 1); } }
      var z;
      z, e, pos := Walk(list, n, e, pos);
      assert e == bs[k];
      SlotsOfBatch(bs, n, k, z);
      visited := visited + BatchSlots(e, z);
      pieces := pieces + 1;
      BatchAt(bs, n, pieces);
    }
  }
}
