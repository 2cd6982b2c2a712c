/** The continuation flag: what `more` says about the entries of a transaction on one queue. */
module ProtocolMore {
  import opened QueueSpec
  import opened Protocol
  import opened ProtocolInv

  /** Once an entry was handed out without `more`, no entry of the same key is left or will come. */
  ghost predicate FinalOk(p: Peer) {
    && (forall i, j | 0 <= i < j < |p.hist| && !p.hist[i].more :: p.hist[i].key != p.hist[j].key)
    && (forall i, a | 0 <= i < |p.hist| && !p.hist[i].more && a in p.queue.nodes ::
          p.hist[i].key != p.queue.nodes[a])
    && (p.pending.Some? && !p.pending.value.more ==>
          forall b | b in p.queue.nodes && b != p.pending.value.addr :: p.queue.nodes[b] != p.pending.value.key)
  }

  ghost predicate Sibling(p: Peer, e: Item) {
    exists b :: b in p.queue.nodes && b != e.addr && p.queue.nodes[b] == e.key
  }

  /** Once an entry was handed out with `more`, the next one handed out has the same key. */
  ghost predicate ContinuedOk(p: Peer) {
    && (forall i | 0 <= i < |p.hist| - 1 && p.hist[i].more :: p.hist[i].key == p.hist[i + 1].key)
    && (p.hist != [] && p.hist[|p.hist| - 1].more ==> Sibling(p, p.hist[|p.hist| - 1]))
    && (p.pending.Some? && p.pending.value.more ==> Sibling(p, p.pending.value))
  }

  ghost predicate MoreOk(p: Peer) {
    && (!p.misled ==> FinalOk(p))
    && (!p.cut ==> ContinuedOk(p))
  }

  /** The key differs from that of every entry that was handed out as the last of its group. */
  ghost predicate NotFinal(p: Peer, k: Key) {
    && (forall i | 0 <= i < |p.hist| && !p.hist[i].more :: p.hist[i].key != k)
    && (p.pending.Some? && !p.pending.value.more ==> p.pending.value.key != k)
  }

  lemma LinkKeepsMore(p: Peer, clock: nat, a: nat, k: Key)
    requires PeerOk(p) && MoreOk(p)
    requires a in p.queue.nodes ==> Staging(p.queue.nodes[a])
    requires !p.misled ==> NotFinal(p, k)
    ensures MoreOk(Linked(p, clock, a, k))
  {
    var p' := Linked(p, clock, a, k);
    if !p.cut {
      if p.hist != [] && p.hist[|p.hist| - 1].more {
        var e := p.hist[|p.hist| - 1];
        var b :| b in p.queue.nodes && b != e.addr && p.queue.nodes[b] == e.key;
        assert ItemOk(p, e);
        assert b in p'.queue.nodes && p'.queue.nodes[b] == e.key;
      }
      if p.pending.Some? && p.pending.value.more {
        var e := p.pending.value;
        var b :| b in p.queue.nodes && b != e.addr && p.queue.nodes[b] == e.key;
        assert b in p'.queue.nodes && p'.queue.nodes[b] == e.key;
      }
    }
  }

  lemma StageKeepsMore(p: Peer, a: nat, group: nat, ts: nat)
    requires PeerOk(p) && MoreOk(p) && a !in p.stamp && ts % 2 == 0
    ensures MoreOk(StagePeer(p, a, group, ts))
  {
    var clock := Max(p.queue.clock, ts);
    StageEffect(p, a, group, ts);
    forall i | 0 <= i < |p.hist| ensures p.hist[i].key != Key(clock + 1, group) {
      assert ItemOk(p, p.hist[i]);
    }
    LinkKeepsMore(p, clock, a, Key(clock + 1, group));
  }

  lemma UnstagedKeepsMore(p: Peer, a: nat, group: nat)
    requires PeerOk(p) && MoreOk(p) && a !in p.stamp
    ensures MoreOk(UnstagedPeer(p, a, group))
  {
    UnstagedKeeps(p, a, group);
    forall i | 0 <= i < |p.hist| ensures p.hist[i].key != Key(p.queue.clock + 2, group) {
      assert ItemOk(p, p.hist[i]);
    }
    LinkKeepsMore(p, p.queue.clock + 2, a, Key(p.queue.clock + 2, group));
  }

  /** A staging entry sorts in front of its committed siblings, so when it is committed none of them
      can have been handed out yet. */
  lemma CommitKeepsMore(p: Peer, a: nat, group: nat, ts: nat)
    requires PeerOk(p) && MoreOk(p) && a in p.queue.nodes && Staging(p.queue.nodes[a])
    requires p.queue.nodes[a].ts < ts <= p.queue.clock
    ensures MoreOk(AddNode(p, a, group, ts))
  {
    CommitKeeps(p, a, group, ts);
    LinkKeepsMore(p, p.queue.clock, a, Key(ts, group));
  }

  lemma OvertakenIsNotFinal(p: Peer, k: Key)
    requires PeerOk(p) && Overtaken(p.queue, k)
    ensures NotFinal(p, k)
  {
    var m :| m in p.queue.nodes && IsLeftmost(p.queue, m) && Lt(p.queue.nodes[m], k);
  }

  /** While an entry of its key is first in line, nothing of that key was handed out as the last one;
      so a tie can only concern the entry that is about to be removed. */
  lemma TieIsNotFinal(p: Peer, a: nat, k: Key)
    requires PeerOk(p) && FinalOk(p) && TieJoin(p.queue, a, k) && !Misleads(p, a, k)
    ensures NotFinal(p, k)
  {
    var m :| m in p.queue.nodes && IsLeftmost(p.queue, m) && p.queue.nodes[m] == k && a < m;
  }

  /** Neither a synced clock nor the record of a misleading join touches the entries. */
  lemma MarksKeepMore(p: Peer, ts: nat, misled: bool)
    requires PeerOk(p) && MoreOk(p) && ts % 2 == 0
    ensures var s := SyncPeer(p, ts);
            PeerOk(s) && MoreOk(s) && PeerOk(s.(misled := s.misled || misled)) && MoreOk(s.(misled := s.misled || misled))
  {
    SyncKeeps(p, ts);
    var s := SyncPeer(p, ts);
    var t := s.(misled := s.misled || misled);
    assert forall e | e in t.hist :: ItemOk(s, e) ==> ItemOk(t, e);
  }

  lemma SyntheticKeepsMore(p: Peer, a: nat, group: nat, ts: nat)
    requires PeerOk(p) && MoreOk(p) && 0 < ts && ts % 2 == 0 && a !in p.stamp
    ensures MoreOk(SyntheticPeer(p, a, group, ts))
  {
    var s := SyncPeer(p, ts);
    var k := Key(ts, group);
    var misleads := Misleads(s, a, k);
    MarksKeepMore(p, ts, misleads);
    if Accepts(s.queue, a, k) {
      var s' := s.(misled := s.misled || misleads);
      if !s'.misled {
        if Overtaken(s.queue, k) { OvertakenIsNotFinal(s', k); } else { TieIsNotFinal(s', a, k); }
      }
      LinkKeepsMore(s', s.queue.clock, a, k);
    }
  }

  lemma ReceiveKeepsMore(p: Peer, a: nat, gone: set<nat>)
    requires PeerOk(p) && MoreOk(p)
    ensures IsFront(p.queue, a) ==> MoreOk(PeekPeer(p, a))
    ensures MoreOk(DiscardPeer(p, gone))
  {
    if !p.cut { CutBreaksMore(p, gone); }
  }

  /** A discard breaks the promise of a flag that was given with `more` exactly if it cuts. */
  lemma CutBreaksMore(p: Peer, gone: set<nat>)
    requires ContinuedOk(p)
    ensures ContinuedOk(DiscardPeer(p, gone)) <==> !Cuts(p, gone)
  {
    var p' := DiscardPeer(p, gone);
    forall e: Item ensures Sibling(p', e) <==> SiblingStays(p, e, gone) {
      if Sibling(p', e) {
        var b :| b in p'.queue.nodes && b != e.addr && p'.queue.nodes[b] == e.key;
        assert b in p.queue.nodes && b !in gone;
      }
      if SiblingStays(p, e, gone) {
        var b :| b in p.queue.nodes && b !in gone && b != e.addr && p.queue.nodes[b] == e.key;
        assert b in p'.queue.nodes;
      }
    }
  }

  lemma TakeKeepsMore(p: Peer)
    requires PeerOk(p) && MoreOk(p) && p.pending.Some?
    ensures MoreOk(TakePeer(p))
  {
    var e := p.pending.value;
    var p' := TakePeer(p);
    if !p.cut && e.more {
      var b :| b in p.queue.nodes && b != e.addr && p.queue.nodes[b] == e.key;
      assert b in p'.queue.nodes;
    }
  }

  ghost predicate MoreInv(s: State) {
    forall p {:trigger MoreOk(s.peers[p])} | p in s.peers :: MoreOk(s.peers[p])
  }

  lemma JoinKeepsMore(s: State, whom: Ref, p: nat, a: nat)
    requires Inv(s) && Enabled(s, Join(whom, p, a)) && MoreOk(s.peers[p])
    ensures MoreOk(DoJoin(s, whom, p, a).peers[p])
  {
    var k := JoinKey(s, whom);
    assert PeerOk(s.peers[p]) && StampOk(s, whom.peer, whom.addr) && TxOk(s, k.group);
    FreshIsUnstamped(s, p, a);
    if JoinsAsync(s, whom) {
      StageKeepsMore(s.peers[p], a, k.group, s.txs[k.group].asyncTs);
    } else {
      SyntheticKeepsMore(s.peers[p], a, k.group, JoinTs(s, whom));
    }
  }

  lemma CommitOneKeepsMore(s: State, t: nat)
    requires Inv(s) && Enabled(s, CommitOne(t)) && MoreOk(s.peers[s.txs[t].sync[0].peer])
    ensures MoreOk(Apply(s, CommitOne(t)).peers[s.txs[t].sync[0].peer])
  {
    var tx := s.txs[t];
    var r := tx.sync[0];
    assert TxOk(s, t) && Listed(tx, r) && BoundOk(s, t, r) && SyncedTo(s, r.peer, tx.timestamp);
    assert PeerOk(s.peers[r.peer]);
    CommitKeepsMore(s.peers[r.peer], r.addr, t, tx.timestamp);
  }

  lemma DoStageKeepsMore(s: State, t: nat, r: Ref)
    requires Inv(s) && t in s.txs && r.peer in s.peers && MoreOk(s.peers[r.peer])
    requires r.addr !in s.peers[r.peer].stamp
    ensures MoreOk(DoStage(s, t, r, false).peers[r.peer])
  {
    assert TxOk(s, t) && PeerOk(s.peers[r.peer]);
    StageKeepsMore(s.peers[r.peer], r.addr, t, s.txs[t].timestamp);
  }

  /** The peer whose queue the action changes. */
  function Destination(s: State, act: Action): nat
    requires Enabled(s, act) && (act.StageSync? || act.StagePostponed? || act.Join? || act.CommitOne?)
  {
    match act
    case StageSync(_, p, _) => p
    case StagePostponed(t) => s.txs[t].postponed[0].peer
    case Join(_, p, _) => p
    case CommitOne(t) => s.txs[t].sync[0].peer
  }

  lemma DestinationKeepsMore(s: State, act: Action)
    requires Inv(s) && Enabled(s, act) && (act.StageSync? || act.StagePostponed? || act.Join? || act.CommitOne?)
    requires Destination(s, act) in s.peers && MoreOk(s.peers[Destination(s, act)])
    ensures MoreOk(Apply(s, act).peers[Destination(s, act)])
  {
    match act
    case StageSync(t, p, a) =>
      FreshIsUnstamped(s, p, a);
      DoStageKeepsMore(s, t, Ref(p, a));
    case StagePostponed(t) =>
      assert TxOk(s, t) && Waiting(s, t, s.txs[t].postponed[0]);
      DoStageKeepsMore(s, t, s.txs[t].postponed[0]);
    case Join(whom, p, a) => JoinKeepsMore(s, whom, p, a);
    case CommitOne(t) => CommitOneKeepsMore(s, t);
  }

  lemma SendStepKeepsMore(s: State, act: Action)
    requires Inv(s) && MoreInv(s) && Enabled(s, act)
    requires act.StageSync? || act.StagePostponed? || act.Join? || act.CommitOne?
    ensures MoreInv(Apply(s, act))
  {
    var s', p := Apply(s, act), Destination(s, act);
    assert MoreOk(s.peers[p]);
    DestinationKeepsMore(s, act);
    forall q | q in s'.peers ensures MoreOk(s'.peers[q]) {
      if q != p { assert MoreOk(s.peers[q]); }
    }
  }

  lemma ReceiveStepKeepsMore(s: State, act: Action)
    requires Inv(s) && Enabled(s, act) && (act.Peek? || act.Take? || act.Receive? || act.Discard?)
    requires MoreOk(s.peers[act.p])
    ensures MoreOk(Apply(s, act).peers[act.p])
  {
    assert PeerOk(s.peers[act.p]);
    match act
    case Peek(p, a) => ReceiveKeepsMore(s.peers[p], a, {});
    case Take(p) => TakeKeepsMore(s.peers[p]);
    case Receive(p, a) =>
      ReceiveKeepsMore(s.peers[p], a, {});
      PeekKeeps(s.peers[p], a);
      TakeKeepsMore(PeekPeer(s.peers[p], a));
    case Discard(p, gone) => ReceiveKeepsMore(s.peers[p], 0, gone);
  }

  lemma UnstagedStepKeepsMore(s: State, p: nat, a: nat)
    requires Inv(s) && Enabled(s, CommitUnstaged(p, a)) && MoreOk(s.peers[p])
    ensures MoreOk(Apply(s, CommitUnstaged(p, a)).peers[p])
  {
    assert PeerOk(s.peers[p]);
    FreshIsUnstamped(s, p, a);
    UnstagedKeepsMore(s.peers[p], a, p);
  }

  /** Starting a peer or a transaction, sealing and syncing leave all entries alone. */
  lemma ClockStepKeepsMore(s: State, act: Action, q: nat)
    requires Enabled(s, act) && q in Apply(s, act).peers && (q in s.peers ==> MoreOk(s.peers[q]))
    requires act.NewPeer? || act.Begin? || act.StageLater? || act.Seal? || act.SyncOne? || act.Splice?
    ensures MoreOk(Apply(s, act).peers[q])
  {
  }

  lemma OtherStepKeepsMore(s: State, act: Action)
    requires Inv(s) && MoreInv(s) && Enabled(s, act)
    requires !(act.StageSync? || act.StagePostponed? || act.Join? || act.CommitOne?)
    ensures MoreInv(Apply(s, act))
  {
    var s' := Apply(s, act);
    forall q | q in s'.peers ensures MoreOk(s'.peers[q]) {
      assert q in s.peers ==> MoreOk(s.peers[q]);
      if act.CommitUnstaged? {
        if q == act.p { UnstagedStepKeepsMore(s, q, act.a); }
      } else if act.Peek? || act.Take? || act.Receive? || act.Discard? {
        if q == act.p { ReceiveStepKeepsMore(s, act); }
      } else {
        ClockStepKeepsMore(s, act, q);
      }
    }
  }

  lemma StepKeepsMore(s: State, act: Action)
    requires Inv(s) && MoreInv(s) && Enabled(s, act)
    ensures MoreInv(Apply(s, act))
  {
    if act.StageSync? || act.StagePostponed? || act.Join? || act.CommitOne? {
      SendStepKeepsMore(s, act);
    } else {
      OtherStepKeepsMore(s, act);
    }
  }
}
