/** The ordering guarantees of the bus, over every run of the protocol. */
module Ordering {
  import opened QueueSpec
  import opened Protocol
  import opened ProtocolInv
  import opened ProtocolMore
  import opened ProtocolOnce
  import opened ProtocolRuns

  /** The `m`-th entry dequeued from `p` belongs to transaction `t`. */
  ghost predicate Delivered(s: State, p: nat, m: nat, t: nat) {
    p in s.peers && m < |s.peers[p].hist| && s.peers[p].hist[m].key.group == t && t in s.txs
  }

  /** Whatever a peer dequeues of a transaction carries that transaction's one commit timestamp. */
  lemma DeliveredKey(s: State, p: nat, m: nat, t: nat)
    requires Inv(s) && Delivered(s, p, m, t)
    ensures Sealed(s, t) && s.peers[p].hist[m].key == Key(s.txs[t].timestamp, t)
  {
    var e := s.peers[p].hist[m];
    assert PeerOk(s.peers[p]);
    assert ItemOk(s.peers[p], e);
    assert StampOk(s, p, e.addr);
  }

  /** On each queue, keys come out in order, and everything still queued sorts above them. */
  lemma DequeuedInOrder(states: seq<State>, acts: seq<Action>, i: nat, p: nat)
    requires Run(states, acts) && i <= |acts| && p in states[i].peers
    ensures var peer := states[i].peers[p];
            && (forall m, n | 0 <= m < n < |peer.hist| :: Le(peer.hist[m].key, peer.hist[n].key))
            && (forall m, a | 0 <= m < |peer.hist| && a in peer.queue.nodes ::
                  Le(peer.hist[m].key, peer.queue.nodes[a]))
  {
    RunInv(states, acts, i);
    assert PeerOk(states[i].peers[p]);
  }

  /** Two transactions that meet on two queues are dequeued in the same order on both, whenever the
      two queues are looked at, and also if their commit timestamps are equal. */
  lemma ConsistentOrder(states: seq<State>, acts: seq<Action>, i: nat, j: nat,
                        p: nat, m1: nat, m2: nat, q: nat, n1: nat, n2: nat, t1: nat, t2: nat)
    requires Run(states, acts) && i <= j <= |acts| && t1 != t2
    requires Delivered(states[i], p, m1, t1) && Delivered(states[i], p, m2, t2)
    requires Delivered(states[j], q, n1, t1) && Delivered(states[j], q, n2, t2)
    ensures m1 < m2 <==> n1 < n2
  {
    RunInv(states, acts, i);
    RunInv(states, acts, j);
    RunLater(states, acts, i, j);
    DeliveredKey(states[i], p, m1, t1);
    DeliveredKey(states[i], p, m2, t2);
    DeliveredKey(states[j], q, n1, t1);
    DeliveredKey(states[j], q, n2, t2);
    assert TxLater(states[i].txs[t1], states[j].txs[t1]) && TxLater(states[i].txs[t2], states[j].txs[t2]);
    assert PeerOk(states[i].peers[p]) && PeerOk(states[j].peers[q]);
  }

  /** Between two entries of a transaction, a queue hands out entries of that transaction only. */
  lemma Contiguous(states: seq<State>, acts: seq<Action>, i: nat, p: nat, m: nat, k: nat, n: nat, t: nat)
    requires Run(states, acts) && i <= |acts| && m <= k <= n
    requires Delivered(states[i], p, m, t) && Delivered(states[i], p, n, t)
    ensures states[i].peers[p].hist[k].key == Key(states[i].txs[t].timestamp, t)
  {
    RunInv(states, acts, i);
    DeliveredKey(states[i], p, m, t);
    DeliveredKey(states[i], p, n, t);
    assert PeerOk(states[i].peers[p]);
  }

  /** The node was linked at its destination under key `k` at last, and is now exactly one of: queued under
      that key, dequeued with it once, discarded. */
  ghost predicate Arrived(s: State, r: Ref, k: Key) {
    && r.peer in s.peers
    && var p := s.peers[r.peer];
    && (r.addr in p.queue.nodes ==> p.queue.nodes[r.addr] == k)
    && (forall m | 0 <= m < |p.hist| && p.hist[m].addr == r.addr :: p.hist[m].key == k && r.addr !in p.queue.nodes)
    && (forall m, n | 0 <= m < n < |p.hist| :: !(p.hist[m].addr == p.hist[n].addr == r.addr))
    && (r.addr in p.discarded <==> r.addr !in p.queue.nodes && forall m | 0 <= m < |p.hist| :: p.hist[m].addr != r.addr)
  }

  /** A node with a commit stamp has arrived under it. */
  lemma StampArrives(s: State, p: nat, a: nat)
    requires AllInv(s) && p in s.peers && a in s.peers[p].stamp && !Staging(s.peers[p].stamp[a])
    ensures Arrived(s, Ref(p, a), s.peers[p].stamp[a])
  {
    var peer := s.peers[p];
    assert PeerOk(peer) && OnceOk(peer);
    forall m | 0 <= m < |peer.hist| && peer.hist[m].addr == a ensures peer.hist[m].key == peer.stamp[a] && a !in peer.queue.nodes {
      assert ItemOk(peer, peer.hist[m]);
      assert a in Dequeued(peer);
    }
    if a in Dequeued(peer) {
      var e :| e in peer.hist && e.addr == a;
      var m :| 0 <= m < |peer.hist| && peer.hist[m] == e;
    }
  }

  /** Once a transaction is committed, each of its nodes has arrived under its commit key. */
  lemma DeliveredExactlyOnce(states: seq<State>, acts: seq<Action>, i: nat, t: nat, r: Ref)
    requires Run(states, acts) && i <= |acts| && WasMember(states[i], t, r) && Sealed(states[i], t)
    requires states[i].txs[t].sync == [] && states[i].txs[t].async == []
    ensures Arrived(states[i], r, Key(states[i].txs[t].timestamp, t))
  {
    RunInv(states, acts, i);
    var s := states[i];
    assert MemberOk(s, t, r) && StampOk(s, r.peer, r.addr);
    assert !Listed(s.txs[t], r);
    assert s.txs.Keys !! s.peers.Keys;
    StampArrives(s, r.peer, r.addr);
  }

  // ----- the continuation flag

  /** At the front of a queue, `more` tells exactly whether another entry of the transaction is
      queued, staged or not: a staging sibling would sort in front. */
  lemma MoreMeansSibling(states: seq<State>, acts: seq<Action>, i: nat, p: nat, a: nat)
    requires Run(states, acts) && i <= |acts| && p in states[i].peers
    requires IsFront(states[i].peers[p].queue, a)
    requires states[i].peers[p].queue.nodes[a].group in states[i].txs
    ensures var q := states[i].peers[p].queue;
            More(q, a) <==> exists b :: b in q.nodes && b != a && q.nodes[b].group == q.nodes[a].group
  {
    RunInv(states, acts, i);
    var s := states[i];
    var q := s.peers[p].queue;
    assert PeerOk(s.peers[p]);
    forall b | b in q.nodes && b != a && q.nodes[b].group == q.nodes[a].group ensures q.nodes[b] == q.nodes[a] {
      SiblingKey(s, p, a, b);
    }
  }

  lemma SiblingKey(s: State, p: nat, a: nat, b: nat)
    requires Inv(s) && p in s.peers && IsFront(s.peers[p].queue, a)
    requires b in s.peers[p].queue.nodes && s.peers[p].queue.nodes[b].group == s.peers[p].queue.nodes[a].group
    requires s.peers[p].queue.nodes[a].group in s.txs
    ensures s.peers[p].queue.nodes[b] == s.peers[p].queue.nodes[a]
  {
    var t := s.peers[p].queue.nodes[a].group;
    assert PeerOk(s.peers[p]);
    assert StampOk(s, p, a) && StampOk(s, p, b);
    if Staging(s.peers[p].queue.nodes[b]) {
      assert TxOk(s, t) && BoundOk(s, t, Ref(p, b));
    }
  }

  /** Absent misleading joins and cutting discards, an entry was handed out with `more` exactly if the next one
      handed out belongs to the same transaction. */
  lemma MoreIsExact(states: seq<State>, acts: seq<Action>, i: nat, p: nat, m: nat)
    requires Run(states, acts) && i <= |acts| && p in states[i].peers
    requires !states[i].peers[p].misled && !states[i].peers[p].cut && m + 1 < |states[i].peers[p].hist|
    ensures var h := states[i].peers[p].hist;
            h[m].more <==> h[m].key == h[m + 1].key
  {
    RunInv(states, acts, i);
    assert MoreOk(states[i].peers[p]);
  }

  /** Absent misleading joins, an entry handed out without `more` is the last of its transaction for good. */
  lemma LastIsFinal(states: seq<State>, acts: seq<Action>, i: nat, p: nat, m: nat, n: nat, t: nat)
    requires Run(states, acts) && i <= |acts| && m < n
    requires Delivered(states[i], p, m, t) && n < |states[i].peers[p].hist|
    requires !states[i].peers[p].misled && !states[i].peers[p].hist[m].more
    ensures states[i].peers[p].hist[n].key.group != t
  {
    RunInv(states, acts, i);
    DeliveredKey(states[i], p, m, t);
    if Delivered(states[i], p, n, t) { DeliveredKey(states[i], p, n, t); }
    assert MoreOk(states[i].peers[p]);
  }

  /** A synthetic commit adds an entry of the same key as one that was peeked as the last of its
      transaction exactly when it takes the tie branch. */
  lemma TieJoinBreaksMore(p: Peer, a: nat, group: nat, ts: nat)
    requires PeerOk(p) && p.pending.Some? && !Sibling(p, p.pending.value)
    requires a !in p.stamp && 0 < ts && ts % 2 == 0
    ensures Sibling(SyntheticPeer(p, a, group, ts), p.pending.value) <==> TieJoin(p.queue, a, Key(ts, group))
  {
    var e, k := p.pending.value, Key(ts, group);
    var q, p' := Sync(p.queue, ts), SyntheticPeer(p, a, group, ts);
    assert IsLeftmost(q, e.addr) && IsLeftmost(p.queue, e.addr);
    SyntheticKeeps(p, a, group, ts);
    if TieJoin(p.queue, a, k) {
      var x :| x in p.queue.nodes && IsLeftmost(p.queue, x) && p.queue.nodes[x] == k && a < x;
      LeftmostIsUnique(p.queue, x, e.addr);
      assert TieJoin(q, a, k);
      assert a in p'.queue.nodes && p'.queue.nodes[a] == e.key;
    }
    if Sibling(p', e) {
      var b :| b in p'.queue.nodes && b != e.addr && p'.queue.nodes[b] == e.key;
      assert b == a && e.key == k;
      assert !Overtaken(q, k);
      var x :| x in q.nodes && IsLeftmost(q, x) && q.nodes[x] == k && a < x;
      LeftmostIsUnique(q, x, e.addr);
    }
  }

  // ----- causality

  /** A transaction that stages on, or is sealed by, a peer that a committing transaction has as a
      destination gets a strictly greater commit timestamp. */
  lemma Causality(states: seq<State>, acts: seq<Action>, i: nat, k: nat, t1: nat, r1: Ref, t2: nat, r2: Ref)
    requires Run(states, acts) && i <= k <= |acts|
    requires t1 in states[i].txs && states[i].txs[t1].committing && r1 in states[i].txs[t1].members
    requires Sealed(states[k], t2)
    requires
      || (WasMember(states[k], t2, r2) && !WasMember(states[i], t2, r2) && r2.peer == r1.peer)
      || (states[k].txs[t2].origin == r1.peer && !Sealed(states[i], t2))
    ensures Sealed(states[k], t1) && states[k].txs[t1].timestamp < states[k].txs[t2].timestamp
  {
    var s, s' := states[i], states[k];
    RunInv(states, acts, i);
    RunInv(states, acts, k);
    RunLater(states, acts, i, k);
    assert TxOk(s, t1) && SyncedTo(s, r1.peer, s.txs[t1].timestamp);
    assert TxLater(s.txs[t1], s'.txs[t1]);
    if WasMember(s', t2, r2) && !WasMember(s, t2, r2) && r2.peer == r1.peer {
      assert MemberOk(s', t2, r2) && StagedSince(s, s', t2, r2);
      MemberStamp(s', t2, r2);
    } else {
      assert SealedSince(s, s', t2);
    }
  }

  /** A staged node's timestamp never exceeds its transaction's commit timestamp. */
  lemma MemberStamp(s: State, t: nat, r: Ref)
    requires Inv(s) && MemberOk(s, t, r) && Sealed(s, t)
    ensures var k := s.peers[r.peer].stamp[r.addr];
            if Staging(k) then k.ts < s.txs[t].timestamp else k.ts == s.txs[t].timestamp
  {
    assert StampOk(s, r.peer, r.addr);
    assert PeerOk(s.peers[r.peer]);
    if Staging(s.peers[r.peer].stamp[r.addr]) {
      assert TxOk(s, t) && BoundOk(s, t, r);
    }
  }

  /** So no peer ever sees an effect before its cause. */
  lemma CauseBeforeEffect(states: seq<State>, acts: seq<Action>, i: nat, k: nat,
                          t1: nat, r1: Ref, t2: nat, r2: Ref, p: nat, m1: nat, m2: nat)
    requires Run(states, acts) && i <= k <= |acts|
    requires t1 in states[i].txs && states[i].txs[t1].committing && r1 in states[i].txs[t1].members
    requires
      || (WasMember(states[k], t2, r2) && !WasMember(states[i], t2, r2) && r2.peer == r1.peer)
      || (t2 in states[k].txs && states[k].txs[t2].origin == r1.peer && !Sealed(states[i], t2))
    requires Delivered(states[k], p, m1, t1) && Delivered(states[k], p, m2, t2)
    ensures m1 < m2
  {
    RunInv(states, acts, k);
    DeliveredKey(states[k], p, m1, t1);
    DeliveredKey(states[k], p, m2, t2);
    Causality(states, acts, i, k, t1, r1, t2, r2);
    assert PeerOk(states[k].peers[p]);
  }

  // ----- node destruction against messages

  /** Whether a handle is live at `timestamp`, given the destroyed flag of its node and the timestamp
      of its own notification node. */
  predicate IsLiveAt(destroyed: bool, ts: nat, timestamp: nat) {
    !destroyed || ts == 0 || ts % 2 == 1 || timestamp <= ts
  }

  /** A message being received sees a handle live exactly if the message's timestamp does not exceed
      the commit timestamp of the transaction that destroys the node, no matter how far that
      transaction has got at that moment. */
  lemma DestructionIsOrdered(states: seq<State>, acts: seq<Action>, i: nat, k: nat,
                             p: nat, t: nat, a: nat, destroyed: bool)
    requires Run(states, acts) && i <= k <= |acts|
    requires p in states[i].peers && states[i].peers[p].pending.Some?
    requires WasMember(states[k], t, Ref(p, a)) && Sealed(states[k], t)
    requires a in states[i].peers[p].stamp ==> destroyed
    ensures var ts := states[i].peers[p].pending.value.key.ts;
            IsLiveAt(destroyed, Stamp(states[i].peers[p], a), ts) <==> ts <= states[k].txs[t].timestamp
  {
    var s, s' := states[i], states[k];
    var peer, r := s.peers[p], Ref(p, a);
    RunInv(states, acts, i);
    RunInv(states, acts, k);
    RunLater(states, acts, i, k);
    assert PeerOk(peer);
    assert MemberOk(s', t, r) && StagedSince(s, s', t, r) && PeerLater(peer, s'.peers[p]);
    MemberStamp(s', t, r);
    if a in peer.stamp {
      assert StampOk(s, p, a);
    }
    assert WasMember(s, t, r) ==> MemberOk(s, t, r);
  }

  /** At any timestamp: until the destroying transaction has committed the notification here, the handle is
      live; from then on it is live exactly up to the commit timestamp. */
  lemma LiveUntilCommitted(states: seq<State>, acts: seq<Action>, i: nat, t: nat, r: Ref, timestamp: nat)
    requires Run(states, acts) && i <= |acts| && WasMember(states[i], t, r)
    ensures r.peer in states[i].peers
    ensures IsLiveAt(true, Stamp(states[i].peers[r.peer], r.addr), timestamp) <==>
              (Sealed(states[i], t) && !Listed(states[i].txs[t], r) ==> timestamp <= states[i].txs[t].timestamp)
  {
    RunInv(states, acts, i);
    var s := states[i];
    assert MemberOk(s, t, r) && StampOk(s, r.peer, r.addr) && TxOk(s, t);
    assert PeerOk(s.peers[r.peer]);
    if Listed(s.txs[t], r) { assert RefOk(s, t, r); }
  }

  /** Every message a peer dequeued before the notification has a timestamp at which the handle is live. */
  lemma MessagesBeforeNotification(states: seq<State>, acts: seq<Action>, k: nat, p: nat, m: nat, n: nat, t: nat)
    requires Run(states, acts) && k <= |acts| && m <= n && Delivered(states[k], p, n, t)
    ensures states[k].peers[p].hist[m].key.ts <= states[k].txs[t].timestamp
  {
    RunInv(states, acts, k);
    DeliveredKey(states[k], p, n, t);
    assert PeerOk(states[k].peers[p]);
  }
}
