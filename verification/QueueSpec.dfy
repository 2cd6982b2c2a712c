/** The order of queue entries, and what each queue operation does to the value of a queue.
    `Queue` refines these functions with cached pointers; `Protocol` interleaves them. */
module QueueSpec {
  /** The sort key of a queue entry: its timestamp and its group tag.
      Group tags are pointers, so they are numbers here and only their order matters. */
  datatype Key = Key(ts: nat, group: nat)

  /** Odd timestamps mark staging entries, even ones committed entries. */
  predicate Staging(k: Key) {
    k.ts % 2 == 1
  }

  predicate Lt(a: Key, b: Key) {
    a.ts < b.ts || (a.ts == b.ts && a.group < b.group)
  }

  predicate Le(a: Key, b: Key) {
    a == b || Lt(a, b)
  }

  function Compare(a: Key, b: Key): (r: int)
    ensures r < 0 <==> a.ts < b.ts || (a.ts == b.ts && a.group < b.group)
    ensures r < 0 <==> Lt(a, b)
    ensures r > 0 <==> Lt(b, a)
    ensures r == 0 <==> a == b
  {
    if a.ts < b.ts then -1
    else if a.ts > b.ts then 1
    else if a.group < b.group then -1
    else if a.group > b.group then 1
    else 0
  }

  /** The strict order of nodes: by key, then by address. */
  predicate Before(a: Key, x: nat, b: Key, y: nat) {
    Lt(a, b) || (a == b && x < y)
  }

  function NodeOrder(a: Key, x: nat, b: Key, y: nat): (r: int)
    ensures r < 0 <==> Compare(a, b) < 0 || (a == b && x < y)
    ensures r < 0 <==> Before(a, x, b, y)
    ensures r > 0 <==> Before(b, y, a, x)
    ensures r == 0 <==> a == b && x == y
  {
    var r := Compare(a, b);
    if r != 0 then r
    else if x < y then -1
    else if x > y then 1
    else 0
  }

  function Max(a: nat, b: nat): nat {
    if a < b then b else a
  }

  /** The value of a queue: its clock and the key of every linked node, by node address. */
  datatype QueueState = QueueState(clock: nat, nodes: map<nat, Key>)

  function Sync(q: QueueState, ts: nat): QueueState {
    q.(clock := Max(q.clock, ts))
  }

  function Tick(q: QueueState): QueueState {
    q.(clock := q.clock + 2)
  }

  /** The guards at the head of the add operation, for a node whose own timestamp is `cur`
      (0 for a node that was never stamped). */
  predicate AddGuards(q: QueueState, a: nat, cur: nat, timestamp: nat) {
    && 0 < timestamp <= q.clock + 1
    && ((cur == 0) == (a !in q.nodes))
    && (cur != 0 ==> cur % 2 == 1 && cur <= timestamp)
  }

  /** Links node `a` under a new key, or moves it there; does nothing when a guard trips. */
  function Add(q: QueueState, a: nat, cur: nat, group: nat, timestamp: nat): QueueState {
    if AddGuards(q, a, cur, timestamp) then q.(nodes := q.nodes[a := Key(timestamp, group)]) else q
  }

  function Remove(q: QueueState, a: nat): QueueState {
    q.(nodes := q.nodes - {a})
  }

  /** The committed entries at or below `ts` leave the queue; staging entries stay. */
  function Flushed(q: QueueState, ts: nat): set<nat> {
    set a | a in q.nodes && !Staging(q.nodes[a]) && q.nodes[a].ts <= ts
  }

  function Flush(q: QueueState, ts: nat): QueueState {
    q.(nodes := q.nodes - Flushed(q, ts))
  }

  /** Every committed entry above `ts` has a staging entry in front of it. */
  predicate Shielded(q: QueueState, ts: nat) {
    forall a | a in q.nodes && !Staging(q.nodes[a]) && q.nodes[a].ts > ts ::
      exists b :: b in q.nodes && Staging(q.nodes[b]) && Before(q.nodes[b], b, q.nodes[a], a)
  }

  predicate IsLeftmost(q: QueueState, m: nat) {
    m in q.nodes && forall b | b in q.nodes && b != m :: Before(q.nodes[m], m, q.nodes[b], b)
  }

  /** A front entry is the smallest entry of the queue, provided that is committed. */
  predicate IsFront(q: QueueState, m: nat) {
    IsLeftmost(q, m) && !Staging(q.nodes[m])
  }

  /** Another entry with the same key is linked: what the peek operation reports as `more`. */
  predicate More(q: QueueState, m: nat)
    requires m in q.nodes
  {
    exists b :: b in q.nodes && b != m && q.nodes[b] == q.nodes[m]
  }

  /** The tie branch of a synthetic commit: the leftmost entry has the very same key, and the
      joining node has the lower address. */
  predicate TieJoin(q: QueueState, a: nat, k: Key) {
    exists m :: m in q.nodes && IsLeftmost(q, m) && q.nodes[m] == k && a < m
  }

  predicate Overtaken(q: QueueState, k: Key) {
    exists m :: m in q.nodes && IsLeftmost(q, m) && Lt(q.nodes[m], k)
  }

  /** A synthetic commit goes in only behind a leftmost entry, or on a tie. */
  predicate Accepts(q: QueueState, a: nat, k: Key) {
    Overtaken(q, k) || TieJoin(q, a, k)
  }

  /** A queue has at most one leftmost entry. */
  lemma LeftmostIsUnique(q: QueueState, m: nat, n: nat)
    requires IsLeftmost(q, m) && IsLeftmost(q, n)
    ensures m == n
  {
  }

  /** A queue with entries has a leftmost one. */
  lemma {:induction false} SomeLeftmost(q: QueueState) returns (m: nat)
    requires q.nodes != map[]
    ensures IsLeftmost(q, m)
    decreases |q.nodes|
  {
    var a :| a in q.nodes;
    m := a;
    var rest := q.(nodes := q.nodes - {a});
    if rest.nodes != map[] {
      var n := SomeLeftmost(rest);
      m := if Before(q.nodes[n], n, q.nodes[a], a) then n else a;
      assert forall b | b in q.nodes && b != a :: b in rest.nodes && rest.nodes[b] == q.nodes[b];
    } else {
      assert forall b | b in q.nodes && b != a :: b in rest.nodes;
    }
  }

  /** A synthetic commit goes in exactly if some entry sorts in front of its key, or the first entry has
      that very key and a higher address. */
  lemma AcceptsMeans(q: QueueState, a: nat, k: Key)
    ensures Accepts(q, a, k) <==>
              || (exists b :: b in q.nodes && Lt(q.nodes[b], k))
              || (exists b :: b in q.nodes && q.nodes[b] == k && a < b && forall c | c in q.nodes && c != b :: Before(k, b, q.nodes[c], c))
  {
    if q.nodes != map[] {
      var m := SomeLeftmost(q);
      forall n | n in q.nodes && IsLeftmost(q, n) ensures n == m { LeftmostIsUnique(q, n, m); }
      forall b | b in q.nodes && Lt(q.nodes[b], k) ensures Lt(q.nodes[m], k) {
        assert b == m || Before(q.nodes[m], m, q.nodes[b], b);
      }
      if Lt(q.nodes[m], k) { assert Overtaken(q, k); }
      if q.nodes[m] == k && a < m { assert TieJoin(q, a, k); }
      forall b | b in q.nodes && q.nodes[b] == k && a < b && (forall c | c in q.nodes && c != b :: Before(k, b, q.nodes[c], c))
        ensures b == m
      {
        assert IsLeftmost(q, b);
      }
    }
  }

  /** Adding never moves a committed entry, nor any entry back, nor beyond the clock; it leaves all others
      alone, and does not bring back a node that was stamped before and is no longer linked. */
  lemma AddMovesForward(q: QueueState, a: nat, cur: nat, group: nat, timestamp: nat)
    requires a in q.nodes ==> q.nodes[a] == Key(cur, group)
    ensures var q' := Add(q, a, cur, group, timestamp);
            && q'.clock == q.clock && (forall b | b != a :: b in q'.nodes <==> b in q.nodes)
            && (forall b | b in q.nodes && b != a :: q'.nodes[b] == q.nodes[b])
            && (a in q.nodes ==> a in q'.nodes && q.nodes[a].ts <= q'.nodes[a].ts && (cur % 2 == 0 || cur == 0 ==> q' == q))
            && (a !in q.nodes && a in q'.nodes ==> cur == 0)
            && (q' != q ==> q'.nodes[a] == Key(timestamp, group) && 0 < timestamp <= q.clock + 1)
  {
  }

  /** What comes first after a flush is a staging entry exactly if the queue was shielded before. */
  lemma FlushUncovers(q: QueueState, ts: nat, m: nat)
    requires IsLeftmost(Flush(q, ts), m)
    ensures Staging(q.nodes[m]) <==> Shielded(q, ts)
  {
    assert forall a | a in q.nodes :: a in Flush(q, ts).nodes <==> Staging(q.nodes[a]) || q.nodes[a].ts > ts;
  }

  lemma FlushEmpties(q: QueueState, ts: nat)
    requires Flush(q, ts).nodes == map[]
    ensures Shielded(q, ts)
  {
    assert forall a | a in q.nodes :: a in Flush(q, ts).nodes <==> Staging(q.nodes[a]) || q.nodes[a].ts > ts;
  }
}
