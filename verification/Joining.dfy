/** Late joins, and what keeps the front of a queue in place. */
module Joining {
  import opened QueueSpec
  import opened Protocol
  import opened ProtocolInv
  import opened ProtocolRuns
  import opened Ordering

  lemma LinkKeepsFront(q: QueueState, clock: nat, a: nat, k: Key, f: nat)
    requires IsFront(q, f) && a != f && Lt(q.nodes[f], k)
    ensures IsFront(QueueState(clock, q.nodes[a := k]), f)
  {
  }

  /** A late join is decided by how far the joined transaction has got. It is staged while the
      transaction is open; later it gets the exact commit key, provided some entry sorts in front;
      else the queue keeps its entries. In both late cases the clock has reached the transaction. */
  lemma LateJoin(states: seq<State>, acts: seq<Action>, i: nat, whom: Ref, p: nat, a: nat)
    requires Run(states, acts) && i <= |acts| && Enabled(states[i], Join(whom, p, a))
    ensures var s := states[i];
            var s' := Apply(s, Join(whom, p, a));
            var g := JoinKey(s, whom).group;
            var q, q' := s.peers[p].queue, s'.peers[p].queue;
            if JoinsAsync(s, whom) then
              Open(s', g) && Listed(s'.txs[g], Ref(p, a)) && RefOk(s', g, Ref(p, a)) && BoundOk(s', g, Ref(p, a))
            else
              var k := Key(s.txs[g].timestamp, g);
              && Sealed(s, g) && s'.txs == s.txs && k.ts <= q'.clock
              && q'.nodes == (if Accepts(Sync(q, k.ts), a, k) then q.nodes[a := k] else q.nodes)
              && ((a in s'.peers[p].stamp) == Accepts(Sync(q, k.ts), a, k))
  {
    RunInv(states, acts, i);
    var s := states[i];
    var s' := Apply(s, Join(whom, p, a));
    var g := JoinKey(s, whom).group;
    assert StampOk(s, whom.peer, whom.addr) && TxOk(s, g) && PeerOk(s.peers[p]);
    FreshIsUnstamped(s, p, a);
    if JoinsAsync(s, whom) {
      StagedRef(s, s', g, Ref(p, a), true, Ref(p, a));
    } else {
      SyntheticKeeps(s.peers[p], a, g, JoinTs(s, whom));
    }
  }

  /** After a late join, whether it was accepted or not, the destination is ordered behind the joined
      transaction: what is staged on it, or sealed by it, from then on gets a greater timestamp. */
  lemma LateJoinIsOrdered(states: seq<State>, acts: seq<Action>, i: nat, k: nat, t: nat, r: Ref)
    requires Run(states, acts) && i < k <= |acts| && acts[i].Join? && !JoinsAsync(states[i], acts[i].whom)
    requires Sealed(states[k], t)
    requires
      || (WasMember(states[k], t, r) && !WasMember(states[i + 1], t, r) && r.peer == acts[i].p)
      || (states[k].txs[t].origin == acts[i].p && !Sealed(states[i + 1], t))
    ensures var g := JoinKey(states[i], acts[i].whom).group;
            Sealed(states[k], g) && states[k].txs[g].timestamp < states[k].txs[t].timestamp
  {
    var s, s', p, g := states[i + 1], states[k], acts[i].p, JoinKey(states[i], acts[i].whom).group;
    LateJoin(states, acts, i, acts[i].whom, p, acts[i].a);
    RunInv(states, acts, k);
    RunLater(states, acts, i + 1, k);
    assert TxLater(s.txs[g], s'.txs[g]) && s.txs[g].timestamp <= s.peers[p].queue.clock;
    if WasMember(s', t, r) && !WasMember(s, t, r) && r.peer == p {
      assert MemberOk(s', t, r) && StagedSince(s, s', t, r);
      MemberStamp(s', t, r);
    } else {
      assert SealedSince(s, s', t);
    }
  }

  /** A synthetic commit becomes the leftmost entry exactly when it takes the tie branch. */
  lemma SyntheticIsLeftmost(q: QueueState, a: nat, k: Key)
    requires a !in q.nodes && Accepts(q, a, k)
    ensures IsLeftmost(q.(nodes := q.nodes[a := k]), a) <==> TieJoin(q, a, k)
  {
    var q' := q.(nodes := q.nodes[a := k]);
    if Overtaken(q, k) {
      var m :| m in q.nodes && IsLeftmost(q, m) && Lt(q.nodes[m], k);
      assert m in q'.nodes && m != a;
      if TieJoin(q, a, k) {
        var n :| n in q.nodes && IsLeftmost(q, n) && q.nodes[n] == k && a < n;
        LeftmostIsUnique(q, m, n);
      }
    }
  }

  /** The action takes the tie branch of a synthetic commit. */
  ghost predicate TiesIn(s: State, act: Action) {
    && act.Join? && Joinable(s, act.whom) && act.p in s.peers && !JoinsAsync(s, act.whom)
    && TieJoin(Sync(s.peers[act.p].queue, JoinTs(s, act.whom)), act.a, Key(JoinTs(s, act.whom), JoinKey(s, act.whom).group))
  }

  lemma StagedBehindFront(p: Peer, a: nat, group: nat, ts: nat, f: nat)
    requires PeerOk(p) && a !in p.stamp && IsFront(p.queue, f)
    ensures IsFront(StagePeer(p, a, group, ts).queue, f)
    ensures IsFront(UnstagedPeer(p, a, group).queue, f)
  {
    var clock := Max(p.queue.clock, ts);
    StageEffect(p, a, group, ts);
    UnstagedKeeps(p, a, group);
    LinkKeepsFront(p.queue, clock, a, Key(clock + 1, group), f);
    LinkKeepsFront(p.queue, p.queue.clock + 2, a, Key(p.queue.clock + 2, group), f);
  }

  lemma SyntheticBehindFront(p: Peer, a: nat, group: nat, ts: nat, f: nat)
    requires PeerOk(p) && a !in p.stamp && IsFront(p.queue, f) && 0 < ts && ts % 2 == 0
    requires !TieJoin(Sync(p.queue, ts), a, Key(ts, group))
    ensures IsFront(SyntheticPeer(p, a, group, ts).queue, f)
  {
    var q, k := Sync(p.queue, ts), Key(ts, group);
    SyntheticKeeps(p, a, group, ts);
    assert IsLeftmost(q, f);
    if Accepts(q, a, k) {
      var m :| m in q.nodes && IsLeftmost(q, m) && Lt(q.nodes[m], k);
      LeftmostIsUnique(q, m, f);
      LinkKeepsFront(p.queue, q.clock, a, k, f);
    }
  }

  lemma JoinedBehindFront(s: State, whom: Ref, p: nat, a: nat, f: nat)
    requires Inv(s) && Enabled(s, Join(whom, p, a)) && !TiesIn(s, Join(whom, p, a))
    requires IsFront(s.peers[p].queue, f)
    ensures IsFront(DoJoin(s, whom, p, a).peers[p].queue, f)
  {
    var g := JoinKey(s, whom).group;
    assert PeerOk(s.peers[p]) && StampOk(s, whom.peer, whom.addr) && TxOk(s, g);
    FreshIsUnstamped(s, p, a);
    if JoinsAsync(s, whom) {
      StagedBehindFront(s.peers[p], a, g, s.txs[g].asyncTs, f);
    } else {
      SyntheticBehindFront(s.peers[p], a, g, JoinTs(s, whom), f);
    }
  }

  lemma LinkedBehindFront(s: State, act: Action, f: nat, p: nat)
    requires Inv(s) && Enabled(s, act) && !TiesIn(s, act) && p in s.peers && IsFront(s.peers[p].queue, f)
    requires act.StageSync? || act.StagePostponed? || act.CommitUnstaged? || act.Join?
    ensures IsFront(Apply(s, act).peers[p].queue, f)
  {
    assert PeerOk(s.peers[p]);
    match act
    case StageSync(t, _, a) =>
      FreshIsUnstamped(s, p, a);
      StagedBehindFront(s.peers[p], a, t, s.txs[t].timestamp, f);
    case StagePostponed(t) =>
      assert TxOk(s, t) && Waiting(s, t, s.txs[t].postponed[0]);
      StagedBehindFront(s.peers[p], s.txs[t].postponed[0].addr, t, s.txs[t].timestamp, f);
    case CommitUnstaged(_, a) =>
      FreshIsUnstamped(s, p, a);
      StagedBehindFront(s.peers[p], a, p, 0, f);
    case Join(whom, q, a) =>
      if q == p { JoinedBehindFront(s, whom, p, a, f); }
  }

  /** An entry that is ready to be dequeued stays at the front until it is removed: nothing is ever
      staged or committed in front of it, except by a tie join. */
  lemma FrontStays(states: seq<State>, acts: seq<Action>, i: nat, p: nat, f: nat)
    requires Run(states, acts) && i < |acts| && p in states[i].peers && IsFront(states[i].peers[p].queue, f)
    requires !TiesIn(states[i], acts[i])
    ensures p in states[i + 1].peers
    ensures f in states[i + 1].peers[p].queue.nodes ==> IsFront(states[i + 1].peers[p].queue, f)
  {
    RunInv(states, acts, i);
    var s, act := states[i], acts[i];
    assert PeerOk(s.peers[p]);
    match act
    case StageSync(_, _, _) => LinkedBehindFront(s, act, f, p);
    case StagePostponed(_) => LinkedBehindFront(s, act, f, p);
    case CommitUnstaged(_, _) => LinkedBehindFront(s, act, f, p);
    case Join(_, _, _) => LinkedBehindFront(s, act, f, p);
    case CommitOne(t) => CommittedBehindFront(s, t, f, p);
    case _ =>
  }

  lemma CommittedBehindFront(s: State, t: nat, f: nat, p: nat)
    requires Inv(s) && Enabled(s, CommitOne(t)) && p in s.peers && IsFront(s.peers[p].queue, f)
    ensures IsFront(Apply(s, CommitOne(t)).peers[p].queue, f)
  {
    var r := s.txs[t].sync[0];
    assert TxOk(s, t) && Listed(s.txs[t], r) && RefOk(s, t, r) && BoundOk(s, t, r);
    if r.peer == p {
      LinkKeepsFront(s.peers[p].queue, s.peers[p].queue.clock, r.addr, Key(s.txs[t].timestamp, t), f);
    }
  }

  /** Committing the next node of a sealed transaction passes every guard of the add operation and
      moves exactly that node, from a lower staging key to the commit key. */
  lemma CommitPassesGuards(states: seq<State>, acts: seq<Action>, i: nat, t: nat)
    requires Run(states, acts) && i <= |acts| && Enabled(states[i], CommitOne(t))
    ensures var s := states[i];
            var r := s.txs[t].sync[0];
            var q := s.peers[r.peer].queue;
            && r.addr in q.nodes && Staging(q.nodes[r.addr]) && q.nodes[r.addr].ts < s.txs[t].timestamp
            && AddGuards(q, r.addr, q.nodes[r.addr].ts, s.txs[t].timestamp)
            && Apply(s, CommitOne(t)).peers[r.peer].queue == q.(nodes := q.nodes[r.addr := Key(s.txs[t].timestamp, t)])
  {
    RunInv(states, acts, i);
    var s := states[i];
    var r := s.txs[t].sync[0];
    assert TxOk(s, t) && Listed(s.txs[t], r) && RefOk(s, t, r) && BoundOk(s, t, r);
    assert SyncedTo(s, r.peer, s.txs[t].timestamp) && PeerOk(s.peers[r.peer]);
    CommitKeeps(s.peers[r.peer], r.addr, t, s.txs[t].timestamp);
  }
}
