/** Delivery: what is linked into a queue is dequeued at most once and never lost. */
module ProtocolOnce {
  import opened QueueSpec
  import opened Protocol
  import opened ProtocolInv

  ghost function Dequeued(p: Peer): set<nat> {
    set e | e in p.hist :: e.addr
  }

  /** No node was dequeued twice; and every node that was ever linked is queued, was dequeued or was
      discarded, and only one of these. */
  ghost predicate OnceOk(p: Peer) {
    && (forall i, j | 0 <= i < j < |p.hist| :: p.hist[i].addr != p.hist[j].addr)
    && Dequeued(p) !! p.queue.nodes.Keys && p.discarded !! p.queue.nodes.Keys + Dequeued(p)
    && p.stamp.Keys == p.queue.nodes.Keys + Dequeued(p) + p.discarded
  }

  lemma LinkKeepsOnce(p: Peer, a: nat, group: nat, ts: nat)
    requires PeerOk(p) && OnceOk(p) && (a in p.stamp ==> a in p.queue.nodes)
    ensures OnceOk(AddNode(p, a, group, ts))
  {
    forall e | e in p.hist ensures e.addr in p.stamp { assert ItemOk(p, e); }
    assert Dequeued(AddNode(p, a, group, ts)) == Dequeued(p);
  }

  lemma SameLinksSameOnce(p: Peer, p': Peer)
    requires p'.hist == p.hist && p'.queue.nodes == p.queue.nodes && p'.stamp == p.stamp && p'.discarded == p.discarded
    ensures OnceOk(p) <==> OnceOk(p')
  {
    assert Dequeued(p') == Dequeued(p);
  }

  lemma SyncedKeepsOnce(p: Peer, clock: nat, a: nat, group: nat, ts: nat)
    requires PeerOk(p) && OnceOk(p) && a !in p.stamp && clock % 2 == 0
    ensures OnceOk(AddNode(SyncPeer(p, clock), a, group, ts))
  {
    SyncKeeps(p, clock);
    SameLinksSameOnce(p, SyncPeer(p, clock));
    LinkKeepsOnce(SyncPeer(p, clock), a, group, ts);
  }

  lemma StagedKeepsOnce(p: Peer, a: nat, group: nat, ts: nat)
    requires PeerOk(p) && OnceOk(p) && a !in p.stamp && ts % 2 == 0
    ensures OnceOk(StagePeer(p, a, group, ts))
  {
    SyncedKeepsOnce(p, ts, a, group, Max(p.queue.clock, ts) + 1);
  }

  lemma UnstagedKeepsOnce(p: Peer, a: nat, group: nat)
    requires PeerOk(p) && OnceOk(p) && a !in p.stamp
    ensures OnceOk(UnstagedPeer(p, a, group))
  {
    SyncedKeepsOnce(p, p.queue.clock + 2, a, group, p.queue.clock + 2);
    assert SyncPeer(p, p.queue.clock + 2) == p.(queue := Tick(p.queue));
  }

  lemma SyntheticKeepsOnce(p: Peer, a: nat, group: nat, ts: nat)
    requires PeerOk(p) && OnceOk(p) && a !in p.stamp && ts % 2 == 0
    ensures OnceOk(SyntheticPeer(p, a, group, ts))
  {
    var s := SyncPeer(p, ts);
    if Accepts(s.queue, a, Key(ts, group)) {
      SyncedKeepsOnce(p, ts, a, group, ts);
      SameLinksSameOnce(AddNode(s, a, group, ts), SyntheticPeer(p, a, group, ts));
    } else {
      SameLinksSameOnce(p, s);
    }
  }

  lemma TakeKeepsOnce(p: Peer)
    requires PeerOk(p) && OnceOk(p) && p.pending.Some?
    ensures OnceOk(TakePeer(p))
  {
    var p', e := TakePeer(p), p.pending.value;
    DequeuedOneMore(p.hist, e);
    assert Dequeued(p') == Dequeued(p) + {e.addr} && e.addr !in Dequeued(p);
    assert p'.queue.nodes.Keys == p.queue.nodes.Keys - {e.addr};
    AddressesDiffer(p, p', e);
  }

  lemma DequeuedOneMore(hist: seq<Item>, e: Item)
    ensures (set x | x in hist + [e] :: x.addr) == (set x | x in hist :: x.addr) + {e.addr}
  {
  }

  lemma AddressesDiffer(p: Peer, p': Peer, e: Item)
    requires p'.hist == p.hist + [e] && e.addr !in Dequeued(p)
    requires forall i, j | 0 <= i < j < |p.hist| :: p.hist[i].addr != p.hist[j].addr
    ensures forall i, j | 0 <= i < j < |p'.hist| :: p'.hist[i].addr != p'.hist[j].addr
  {
    assert forall i | 0 <= i < |p.hist| :: p.hist[i] in p.hist && p.hist[i].addr in Dequeued(p);
  }

  lemma DiscardKeepsOnce(p: Peer, gone: set<nat>)
    requires OnceOk(p) && gone <= p.queue.nodes.Keys
    ensures OnceOk(DiscardPeer(p, gone))
  {
    var p' := DiscardPeer(p, gone);
    assert Dequeued(p') == Dequeued(p) && p'.queue.nodes.Keys == p.queue.nodes.Keys - gone;
  }

  lemma ReceiveKeepsOnce(p: Peer, a: nat)
    requires PeerOk(p) && OnceOk(p) && IsFront(p.queue, a)
    ensures OnceOk(PeekPeer(p, a)) && OnceOk(ReceivePeer(p, a))
  {
    PeekKeeps(p, a);
    SameLinksSameOnce(p, PeekPeer(p, a));
    TakeKeepsOnce(PeekPeer(p, a));
  }

  ghost predicate OnceInv(s: State) {
    forall p {:trigger OnceOk(s.peers[p])} | p in s.peers :: OnceOk(s.peers[p])
  }

  lemma StageKeepsOnce(s: State, act: Action, q: nat)
    requires Inv(s) && Enabled(s, act) && q in s.peers && OnceOk(s.peers[q]) && (act.StageSync? || act.StagePostponed?)
    ensures OnceOk(Apply(s, act).peers[q])
  {
    assert PeerOk(s.peers[q]) && TxOk(s, act.t);
    match act
    case StageSync(t, p, a) =>
      FreshIsUnstamped(s, q, a);
      StagedKeepsOnce(s.peers[q], a, t, s.txs[t].timestamp);
    case StagePostponed(t) =>
      assert Waiting(s, t, s.txs[t].postponed[0]);
      StagedKeepsOnce(s.peers[q], s.txs[t].postponed[0].addr, t, s.txs[t].timestamp);
  }

  lemma LinkStepKeepsOnce(s: State, act: Action, q: nat)
    requires Inv(s) && Enabled(s, act) && q in s.peers && OnceOk(s.peers[q])
    requires act.Join? || act.CommitOne? || act.CommitUnstaged?
    ensures OnceOk(Apply(s, act).peers[q])
  {
    assert PeerOk(s.peers[q]);
    match act
    case Join(whom, p, a) =>
      var g := JoinKey(s, whom).group;
      assert StampOk(s, whom.peer, whom.addr) && TxOk(s, g);
      FreshIsUnstamped(s, q, a);
      if JoinsAsync(s, whom) {
        StagedKeepsOnce(s.peers[q], a, g, s.txs[g].asyncTs);
      } else {
        SyntheticKeepsOnce(s.peers[q], a, g, JoinTs(s, whom));
      }
    case CommitOne(t) =>
      var r := s.txs[t].sync[0];
      ListedIsUsed(s, t, r);
      if r.peer == q { LinkKeepsOnce(s.peers[q], r.addr, t, s.txs[t].timestamp); }
    case CommitUnstaged(p, a) =>
      FreshIsUnstamped(s, q, a);
      UnstagedKeepsOnce(s.peers[q], a, p);
  }

  lemma OtherStepKeepsOnce(s: State, act: Action, q: nat)
    requires Inv(s) && Enabled(s, act) && q in s.peers && OnceOk(s.peers[q])
    requires !act.StageSync? && !act.StagePostponed? && !act.Join? && !act.CommitOne? && !act.CommitUnstaged?
    ensures OnceOk(Apply(s, act).peers[q])
  {
    assert PeerOk(s.peers[q]);
    if act == Take(q) {
      TakeKeepsOnce(s.peers[q]);
    } else if (act.Peek? || act.Receive?) && act.p == q {
      ReceiveKeepsOnce(s.peers[q], act.a);
    } else if act.Discard? && act.p == q {
      DiscardKeepsOnce(s.peers[q], act.gone);
    } else {
      SameLinksSameOnce(s.peers[q], Apply(s, act).peers[q]);
    }
  }

  lemma StepKeepsOnce(s: State, act: Action)
    requires Inv(s) && OnceInv(s) && Enabled(s, act)
    ensures OnceInv(Apply(s, act))
  {
    var s' := Apply(s, act);
    forall q | q in s'.peers ensures OnceOk(s'.peers[q]) {
      if q in s.peers {
        assert OnceOk(s.peers[q]);
        if act.StageSync? || act.StagePostponed? {
          StageKeepsOnce(s, act, q);
        } else if act.Join? || act.CommitOne? || act.CommitUnstaged? {
          LinkStepKeepsOnce(s, act, q);
        } else {
          OtherStepKeepsOnce(s, act, q);
        }
      }
    }
  }
}
