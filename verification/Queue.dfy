/** The message queue with its cached pointers, refining the value of a queue. A node is named by its
    address. The sorted tree is held as the sequence of its nodes in order; descending it is narrowing
    an interval of that sequence around an arbitrary pivot, which covers every shape of the tree. */
module Queue {
  import opened Common
  import opened QueueSpec

  /** `tree` lists exactly the keys of `nodes`, in ascending order. */
  ghost predicate Sorted(tree: seq<nat>, nodes: map<nat, Key>) {
    && (forall i | 0 <= i < |tree| :: tree[i] in nodes)
    && (forall i, j | 0 <= i < j < |tree| :: Before(nodes[tree[i]], tree[i], nodes[tree[j]], tree[j]))
    && (forall a {:trigger Occurs(tree, a)} | a in nodes :: Occurs(tree, a))
  }

  lemma WithoutIsSorted(tree: seq<nat>, nodes: map<nat, Key>, i: nat)
    requires Sorted(tree, nodes) && i < |tree|
    ensures Sorted(Without(tree, i), nodes - {tree[i]})
    ensures Without(tree, i) != [] ==> Without(tree, i)[0] == if i == 0 then tree[1] else tree[0]
  {
    var rest := Without(tree, i);
    assert forall k | 0 <= k < |rest| :: rest[k] == tree[if k < i then k else k + 1];
    forall a | a in nodes - {tree[i]} ensures Occurs(rest, a) {
      assert Occurs(tree, a);
      var k :| 0 <= k < |tree| && tree[k] == a;
      assert rest[if k < i then k else k - 1] == a;
    }
  }

  lemma WithIsSorted(tree: seq<nat>, nodes: map<nat, Key>, slot: nat, a: nat, k: Key)
    requires Sorted(tree, nodes) && slot <= |tree| && a !in nodes
    requires forall i | 0 <= i < slot :: Before(nodes[tree[i]], tree[i], k, a)
    requires forall i | slot <= i < |tree| :: Before(k, a, nodes[tree[i]], tree[i])
    ensures Sorted(With(tree, slot, a), nodes[a := k])
  {
    var tree' := With(tree, slot, a);
    assert forall i | 0 <= i < |tree'| :: tree'[i] == if i < slot then tree[i] else if i == slot then a else tree[i - 1];
    forall b | b in nodes[a := k] ensures Occurs(tree', b) {
      if b == a {
        assert tree'[slot] == b;
      } else {
        assert Occurs(tree, b);
        var i :| 0 <= i < |tree| && tree[i] == b;
        assert tree'[if i < slot then i else i + 1] == b;
      }
    }
  }

  /** The first node of the tree is the smallest entry. */
  lemma FirstIsLeftmost(tree: seq<nat>, q: QueueState)
    requires Sorted(tree, q.nodes)
    ensures if tree == [] then q.nodes == map[] else IsLeftmost(q, tree[0])
  {
    forall b | b in q.nodes ensures tree != [] && (b == tree[0] || Before(q.nodes[tree[0]], tree[0], q.nodes[b], b)) {
      assert Occurs(tree, b);
      var i :| 0 <= i < |tree| && tree[i] == b;
    }
  }

  ghost predicate Ascending(ns: seq<nat>, nodes: map<nat, Key>) {
    && (forall i | 0 <= i < |ns| :: ns[i] in nodes)
    && (forall i, j | 0 <= i < j < |ns| :: Before(nodes[ns[i]], ns[i], nodes[ns[j]], ns[j]))
  }

  /** The entries a flush takes, last one first, and the ones it leaves, in order. */
  ghost function Taken(ns: seq<nat>, q: QueueState, ts: nat): seq<nat> {
    if ns == [] then []
    else
      var last := ns[|ns| - 1];
      (if last in Flushed(q, ts) then [last] else []) + Taken(ns[..|ns| - 1], q, ts)
  }

  ghost function Left(ns: seq<nat>, q: QueueState, ts: nat): seq<nat> {
    if ns == [] then []
    else
      var last := ns[|ns| - 1];
      Left(ns[..|ns| - 1], q, ts) + (if last in Flushed(q, ts) then [] else [last])
  }

  lemma {:induction false} FlushSplits(ns: seq<nat>, q: QueueState, ts: nat)
    ensures forall a :: a in Taken(ns, q, ts) <==> a in ns && a in Flushed(q, ts)
    ensures forall a :: a in Left(ns, q, ts) <==> a in ns && a !in Flushed(q, ts)
    ensures |Taken(ns, q, ts)| + |Left(ns, q, ts)| == |ns|
  {
    if ns != [] {
      var init, last := ns[..|ns| - 1], ns[|ns| - 1];
      FlushSplits(init, q, ts);
      forall a ensures a in ns <==> a in init || a == last {
        assert ns == init + [last];
      }
    }
  }

  lemma {:induction false} LeftAscends(ns: seq<nat>, q: QueueState, ts: nat)
    requires Ascending(ns, q.nodes)
    ensures Ascending(Left(ns, q, ts), q.nodes)
  {
    if ns != [] {
      var init, last := ns[..|ns| - 1], ns[|ns| - 1];
      LeftAscends(init, q, ts);
      FlushSplits(init, q, ts);
      var rest := Left(init, q, ts);
      forall i | 0 <= i < |rest| ensures Before(q.nodes[rest[i]], rest[i], q.nodes[last], last) {
        assert rest[i] in init;
      }
    }
  }

  /** A flush hands over the last entry first. */
  lemma {:induction false} TakenDescends(ns: seq<nat>, q: QueueState, ts: nat)
    requires Ascending(ns, q.nodes)
    ensures var l := Taken(ns, q, ts);
            forall i, j | 0 <= i < j < |l| :: l[i] in q.nodes && l[j] in q.nodes && Before(q.nodes[l[j]], l[j], q.nodes[l[i]], l[i])
  {
    if ns != [] {
      var init, last := ns[..|ns| - 1], ns[|ns| - 1];
      TakenDescends(init, q, ts);
      FlushSplits(init, q, ts);
      var rest := Taken(init, q, ts);
      forall i | 0 <= i < |rest| ensures rest[i] in q.nodes && Before(q.nodes[rest[i]], rest[i], q.nodes[last], last) {
        assert rest[i] in init;
      }
    }
  }

  /** What a flush leaves is the tree of the flushed queue. */
  lemma LeftIsSorted(tree: seq<nat>, q: QueueState, ts: nat)
    requires Sorted(tree, q.nodes)
    ensures Sorted(Left(tree, q, ts), QueueSpec.Flush(q, ts).nodes)
  {
    FlushSplits(tree, q, ts);
    LeftAscends(tree, q, ts);
    forall a | a in q.nodes && a !in Flushed(q, ts) ensures Occurs(Left(tree, q, ts), a) {
      assert Occurs(tree, a);
      assert a in Left(tree, q, ts);
    }
  }

  /** So its first node is a staging entry, or there is none, exactly if the queue was shielded. */
  lemma LeftIsShielded(tree: seq<nat>, q: QueueState, ts: nat)
    requires Sorted(tree, q.nodes)
    ensures var kept := Left(tree, q, ts);
            (kept != [] ==> kept[0] in q.nodes && Staging(q.nodes[kept[0]])) <==> Shielded(q, ts)
  {
    LeftIsSorted(tree, q, ts);
    FirstIsLeftmost(Left(tree, q, ts), QueueSpec.Flush(q, ts));
    if Left(tree, q, ts) == [] { FlushEmpties(q, ts); } else { FlushUncovers(q, ts, Left(tree, q, ts)[0]); }
  }

  /** What a flush takes are exactly the committed entries up to its timestamp. */
  lemma TakenIsFlushed(tree: seq<nat>, q: QueueState, ts: nat)
    requires Sorted(tree, q.nodes)
    ensures (set a | a in Taken(tree, q, ts)) == Flushed(q, ts)
    ensures |Taken(tree, q, ts)| + |Left(tree, q, ts)| == |tree|
  {
    FlushSplits(tree, q, ts);
    assert forall a | a in q.nodes :: Occurs(tree, a);
  }

  class Queue {
    var clock: nat
    var flush: nat
    var leftmost: Option<nat>
    var front: Option<nat>
    var nodes: map<nat, Key>
    var tree: seq<nat>

    /** A front, where there is one, is the smallest entry and committed. */
    ghost predicate Valid()
      reads this
    {
      && clock % 2 == 0 && Sorted(tree, nodes)
      && (forall a | a in nodes :: 0 < nodes[a].ts <= clock + 1)
      && leftmost == (if tree == [] then None else Some(tree[0]))
      && (front.Some? ==> front == leftmost && !Staging(nodes[front.value]))
    }

    /** The front is set whenever the smallest entry is committed. */
    ghost predicate Cached()
      reads this
    {
      leftmost.Some? && leftmost.value in nodes && !Staging(nodes[leftmost.value]) ==> front == leftmost
    }

    ghost function Value(): QueueState
      reads this
    {
      QueueState(clock, nodes)
    }

    constructor ()
      ensures Valid() && Cached() && Value() == QueueState(0, map[]) && flush == 0
    {
      clock, flush, leftmost, front, nodes, tree := 0, 0, None, None, map[], [];
    }

    method Tick() returns (ts: nat)
      requires Valid()
      modifies this`clock
      ensures Valid() && Value() == QueueSpec.Tick(old(Value())) && ts == clock
    {
      clock := clock + 2;
      ts := clock;
    }

    method Sync(timestamp: nat) returns (ts: nat)
      requires Valid() && timestamp % 2 == 0
      modifies this`clock
      ensures Valid() && Value() == QueueSpec.Sync(old(Value()), timestamp) && ts == clock
    {
      clock := Max(clock, timestamp);
      ts := clock;
    }

    /** Where a node goes in the tree, found along an arbitrary path down the tree. */
    method Locate(a: nat, k: Key, rest: seq<nat>) returns (slot: nat, isLeftmost: bool)
      requires forall i | 0 <= i < |rest| :: rest[i] in nodes && rest[i] != a
      requires forall i, j | 0 <= i < j < |rest| :: Before(nodes[rest[i]], rest[i], nodes[rest[j]], rest[j])
      ensures slot <= |rest| && isLeftmost == (slot == 0)
      ensures forall i | 0 <= i < slot :: Before(nodes[rest[i]], rest[i], k, a)
      ensures forall i | slot <= i < |rest| :: Before(k, a, nodes[rest[i]], rest[i])
    {
      slot, isLeftmost := 0, true;
      var hi := |rest|;
      while slot < hi
        invariant slot <= hi <= |rest| && isLeftmost == (slot == 0)
        invariant forall i | 0 <= i < slot :: Before(nodes[rest[i]], rest[i], k, a)
        invariant forall i | hi <= i < |rest| :: Before(k, a, nodes[rest[i]], rest[i])
      {
        var n :| slot <= n < hi;
        if NodeOrder(k, a, nodes[rest[n]], rest[n]) < 0 {
          hi := n;
        } else {
          slot, isLeftmost := n + 1, false;
        }
      }
    }

    /** Takes a staging node out of the tree to move it to key `k`; what it uncovers becomes the front
        if that is committed and stays in front of it. */
    method Uncover(a: nat, k: Key) returns (rest: seq<nat>)
      requires Valid() && (a in nodes ==> Staging(nodes[a]))
      modifies this`leftmost, this`front
      ensures Sorted(rest, nodes - {a})
      ensures old(leftmost) != Some(a) ==> leftmost == old(leftmost) && front == old(front)
      ensures leftmost == (if rest == [] then None else Some(rest[0]))
      ensures front.Some? ==> front == leftmost && !Staging(nodes[front.value])
      ensures old(Cached()) && rest != [] && !Staging(nodes[rest[0]]) && Before(nodes[rest[0]], rest[0], k, a)
              ==> front == leftmost
      ensures old(leftmost) == Some(a) ==>
                (front.Some? <==> rest != [] && !Staging(nodes[rest[0]]) && Before(nodes[rest[0]], rest[0], k, a))
    {
      rest := tree;
      if a in nodes {
        assert Occurs(tree, a);
        var i :| 0 <= i < |tree| && tree[i] == a;
        rest := Without(tree, i);
        WithoutIsSorted(tree, nodes, i);
        if leftmost == Some(a) {
          leftmost := if |tree| > 1 then Some(tree[1]) else None;
          if leftmost.Some? && nodes[leftmost.value].ts % 2 == 0 &&
             NodeOrder(nodes[leftmost.value], leftmost.value, k, a) <= 0 {
            front := leftmost;
          }
        }
      } else {
        assert nodes - {a} == nodes;
      }
    }

    /** Puts a node that was taken out, or is new, into the tree. */
    method Insert(a: nat, k: Key, rest: seq<nat>) returns (isLeftmost: bool)
      requires Sorted(rest, nodes - {a})
      modifies this`nodes, this`tree
      ensures nodes == old(nodes)[a := k] && Sorted(tree, nodes) && tree != []
      ensures if isLeftmost
              then tree[0] == a && (rest != [] ==> Before(k, a, nodes[rest[0]], rest[0]))
              else rest != [] && tree[0] == rest[0] && Before(nodes[rest[0]], rest[0], k, a)
    {
      var slot;
      slot, isLeftmost := Locate(a, k, rest);
      WithIsSorted(rest, nodes - {a}, slot, a, k);
      assert (nodes - {a})[a := k] == nodes[a := k];
      nodes, tree := nodes[a := k], With(rest, slot, a);
    }

    /** Moves a node to key `k`, from outside the queue or from a lower staging key. */
    method Move(a: nat, k: Key)
      requires Valid() && 0 < k.ts <= clock + 1 && (Staging(k) ==> clock < k.ts)
      requires a in nodes ==> Staging(nodes[a])
      modifies this`leftmost, this`front, this`nodes, this`tree
      ensures Valid() && (old(Cached()) ==> Cached())
      ensures nodes == old(nodes)[a := k]
      ensures var l := old(leftmost);
              l.Some? && l.value != a && Before(old(nodes)[l.value], l.value, k, a) ==> leftmost == l && front == old(front)
    {
      var rest := Uncover(a, k);
      var isLeftmost := Insert(a, k, rest);
      if isLeftmost {
        leftmost := Some(a);
        if k.ts % 2 == 0 {
          front := leftmost;
        }
      }
    }

    /** Links a node under `timestamp`, or moves it there from a lower staging timestamp. `cur` is the
        node's own timestamp, 0 if it was never stamped. */
    method Add(a: nat, cur: nat, group: nat, timestamp: nat)
      requires Valid() && (a in nodes ==> nodes[a] == Key(cur, group))
      requires timestamp % 2 == 1 ==> clock < timestamp
      modifies this`leftmost, this`front, this`nodes, this`tree
      ensures Valid() && (old(Cached()) ==> Cached())
      ensures Value() == QueueSpec.Add(old(Value()), a, cur, group, timestamp)
      ensures !AddGuards(old(Value()), a, cur, timestamp) ==> unchanged(this)
      ensures var l := old(leftmost);
              l.Some? && l.value != a && Before(old(nodes)[l.value], l.value, Key(timestamp, group), a)
              ==> leftmost == l && front == old(front)
    {
      if timestamp == 0 || timestamp > clock + 1 { return; }
      if (cur == 0) == (a in nodes) { return; }
      if cur != 0 && (cur % 2 == 0 || timestamp < cur) { return; }
      if cur == timestamp { return; }
      Move(a, Key(timestamp, group));
    }

    /** Stages an unlinked node right after everything the clock has seen. */
    method Stage(a: nat, cur: nat, group: nat, timestamp: nat) returns (ts: nat)
      requires Valid() && a !in nodes && timestamp % 2 == 0
      modifies this
      ensures Valid() && (old(Cached()) ==> Cached()) && flush == old(flush)
      ensures ts == Max(old(clock), timestamp) == clock
      ensures Value() == QueueSpec.Add(QueueSpec.Sync(old(Value()), timestamp), a, cur, group, ts + 1)
      ensures front != Some(a)
    {
      ts := Sync(timestamp);
      Add(a, cur, group, ts + 1);
    }

    method CommitStaged(a: nat, group: nat, timestamp: nat)
      requires Valid() && a in nodes && nodes[a].group == group && timestamp % 2 == 0
      modifies this`leftmost, this`front, this`nodes, this`tree
      ensures Valid() && (old(Cached()) ==> Cached())
      ensures Value() == QueueSpec.Add(old(Value()), a, old(nodes)[a].ts, group, timestamp)
    {
      Add(a, nodes[a].ts, group, timestamp);
    }

    /** Commits an unlinked node with a timestamp of its own; it goes to the end of the queue. */
    method CommitUnstaged(a: nat, cur: nat, group: nat)
      requires Valid() && a !in nodes
      modifies this
      ensures Valid() && (old(Cached()) ==> Cached()) && flush == old(flush)
      ensures Value() == QueueSpec.Add(QueueSpec.Tick(old(Value())), a, cur, group, clock)
      ensures old(leftmost).Some? ==> leftmost == old(leftmost) && front == old(front)
    {
      var ts := Tick();
      Add(a, cur, group, ts);
    }

    /** Links an unlinked node under a timestamp of the past, unless it would come first. */
    method CommitSynthetic(a: nat, cur: nat, group: nat, timestamp: nat) returns (queued: bool)
      requires Valid() && a !in nodes && timestamp % 2 == 0 && timestamp <= clock + 1
      modifies this`leftmost, this`front, this`nodes, this`tree
      ensures Valid() && (old(Cached()) ==> Cached())
      ensures queued <==> Accepts(old(Value()), a, Key(timestamp, group))
      ensures Value() == if queued then QueueSpec.Add(old(Value()), a, cur, group, timestamp) else old(Value())
    {
      queued := false;
      ghost var q, k := Value(), Key(timestamp, group);
      FirstIsLeftmost(tree, q);
      if leftmost.Some? {
        var t := leftmost.value;
        var r := Compare(nodes[t], Key(timestamp, group));
        forall m | m in q.nodes && IsLeftmost(q, m) ensures m == t {
          LeftmostIsUnique(q, m, t);
        }
        if r < 0 || (r == 0 && a < t) {
          Add(a, cur, group, timestamp);
          queued := true;
        }
      }
    }

    /** Unlinks a node. If it came first, the next entry becomes the front if it is committed. */
    method Remove(a: nat)
      requires Valid()
      modifies this`leftmost, this`front, this`nodes, this`tree
      ensures Valid() && (old(Cached()) || old(leftmost) == Some(a) ==> Cached())
      ensures Value() == QueueSpec.Remove(old(Value()), a)
    {
      if a !in nodes {
        assert nodes - {a} == nodes;
        return;
      }
      assert Occurs(tree, a);
      var i :| 0 <= i < |tree| && tree[i] == a;
      var rest := Without(tree, i);
      WithoutIsSorted(tree, nodes, i);
      if leftmost == Some(a) {
        var next := if |tree| > 1 then Some(tree[1]) else None;
        assert next == if rest == [] then None else Some(rest[0]);
        leftmost := next;
        front := if next.Some? && nodes[next.value].ts % 2 == 0 then next else None;
      }
      nodes, tree := nodes - {a}, rest;
    }

    /** The entry that may be dequeued next, and whether another entry of its transaction follows. */
    method Peek() returns (node: Option<nat>, more: bool)
      requires Valid()
      ensures node.Some? ==> IsFront(Value(), node.value) && (more <==> More(Value(), node.value))
      ensures node.None? && Cached() ==> forall m :: !IsFront(Value(), m)
    {
      FirstIsLeftmost(tree, Value());
      node, more := front, false;
      if front.Some? {
        more := |tree| > 1 && Compare(nodes[front.value], nodes[tree[1]]) == 0;
        if More(Value(), front.value) {
          var b :| b in nodes && b != front.value && nodes[b] == nodes[front.value];
          assert Occurs(tree, b);
          var i :| 0 <= i < |tree| && tree[i] == b;
          assert i == 1 || Before(nodes[tree[1]], tree[1], nodes[b], b);
        }
      }
    }

    /** One pass over the tree: what a flush at `ts` takes, what it leaves, and the first of those. */
    method Sweep(ts: nat) returns (list: seq<nat>, gone: set<nat>, kept: seq<nat>, first: Option<nat>)
      requires Valid()
      ensures list == Taken(tree, Value(), ts) && gone == Flushed(Value(), ts)
      ensures kept == Left(tree, Value(), ts) && first == (if kept == [] then None else Some(kept[0]))
    {
      list, gone, kept, first := [], {}, [], None;
      var i := 0;
      while i < |tree|
        invariant i <= |tree| && gone == set a | a in list
        invariant list == Taken(tree[..i], Value(), ts) && kept == Left(tree[..i], Value(), ts)
        invariant first == (if kept == [] then None else Some(kept[0]))
      {
        var node := tree[i];
        assert tree[..i + 1][..i] == tree[..i];
        if nodes[node].ts % 2 == 0 && nodes[node].ts <= ts {
          list, gone := [node] + list, gone + {node};
        } else {
          kept := kept + [node];
          if first.None? {
            first := Some(node);
          }
        }
        i := i + 1;
      }
      assert tree[..|tree|] == tree;
      TakenIsFlushed(tree, Value(), ts);
    }

    /** Takes all committed entries up to `ts` out of the queue and hands them over, last one first.
        The front is cleared and not set again, so it is correct afterwards exactly if the queue was
        shielded: no committed entry above `ts` becomes the first one. */
    method Flush(ts: nat) returns (list: seq<nat>)
      requires Valid() && ts % 2 == 0 && flush <= ts <= clock + 1
      modifies this
      ensures Valid() && flush == ts && Value() == QueueSpec.Flush(old(Value()), ts)
      ensures list == Taken(old(tree), old(Value()), ts) && tree == Left(old(tree), old(Value()), ts)
      ensures front == None && (Cached() <==> Shielded(old(Value()), ts))
    {
      LeftIsSorted(tree, Value(), ts);
      LeftIsShielded(tree, Value(), ts);
      var gone, kept, first;
      list, gone, kept, first := Sweep(ts);
      nodes, tree := nodes - gone, kept;
      front, leftmost, flush := None, first, ts;
    }
  }

  /** Message 2 is first in line, but the queue has no front. */
  ghost predicate Stalled(q: Queue, n: nat)
    reads q
  {
    && q.Valid() && q.front == None && q.leftmost == Some(2) && 2 in q.nodes && q.nodes[2] == Key(4, 7)
    && q.clock == 4 + 2 * n && forall a | a in q.nodes :: a < 3 + n
  }

  method Stall() returns (q: Queue)
    ensures fresh(q) && Stalled(q, 0)
  {
    q := new Queue();
    q.CommitUnstaged(1, 0, 7);
    q.CommitUnstaged(2, 0, 7);
    var gone := q.Flush(2);
    FirstIsLeftmost(q.tree, q.Value());
    assert 2 in q.nodes && q.leftmost == Some(2);
  }

  /** A flush can hide messages: a committed entry above the flush timestamp is first in line, yet the
      queue reports nothing to dequeue, however many more messages are committed. */
  method FlushStalls(n: nat) returns (q: Queue)
    ensures q.Valid() && q.front == None && IsFront(q.Value(), 2) && q.Value().clock == 4 + 2 * n
  {
    q := Stall();
    for i := 0 to n
      invariant fresh(q) && Stalled(q, i)
    {
      q.CommitUnstaged(3 + i, 0, 7);
    }
    FirstIsLeftmost(q.tree, q.Value());
  }
}
