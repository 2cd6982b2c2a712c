/** How later states of a run relate to earlier ones. */
module ProtocolRuns {
  import opened QueueSpec
  import opened Protocol
  import opened ProtocolInv
  import opened ProtocolMore
  import opened ProtocolOnce

  ghost predicate Run(states: seq<State>, acts: seq<Action>) {
    && |states| == |acts| + 1 && states[0] == Init
    && forall i | 0 <= i < |acts| :: Enabled(states[i], acts[i]) && states[i + 1] == Apply(states[i], acts[i])
  }

  /** A node its transaction staged carries that transaction's tag for good. */
  ghost predicate MemberOk(s: State, t: nat, r: Ref) {
    && r.peer in s.peers && r.addr in s.peers[r.peer].stamp
    && s.peers[r.peer].stamp[r.addr].group == t
  }

  ghost predicate MembersInv(s: State) {
    forall t, r {:trigger MemberOk(s, t, r)} | t in s.txs && r in s.txs[t].members :: MemberOk(s, t, r)
  }

  ghost predicate AllInv(s: State) {
    Inv(s) && MoreInv(s) && OnceInv(s) && MembersInv(s)
  }

  // ----- what may change from one state to a later one

  ghost predicate PeerLater(p: Peer, p': Peer) {
    && p.queue.clock <= p'.queue.clock
    && p.hist <= p'.hist
    && (forall a | a in p.stamp ::
          && a in p'.stamp && p'.stamp[a].group == p.stamp[a].group && p.stamp[a].ts <= p'.stamp[a].ts
          && (!Staging(p.stamp[a]) ==> p'.stamp[a] == p.stamp[a]))
  }

  ghost predicate TxLater(tx: Tx, tx': Tx) {
    && tx'.origin == tx.origin && tx.members <= tx'.members
    && (tx.sealed ==> tx'.sealed && tx'.timestamp == tx.timestamp)
    && (tx.committing ==> tx'.committing)
  }

  ghost predicate WasMember(s: State, t: nat, r: Ref) {
    t in s.txs && r in s.txs[t].members
  }

  /** A node staged since `s` was stamped beyond the clock its peer had in `s`. */
  ghost predicate StagedSince(s: State, s': State, t: nat, r: Ref)
    requires MemberOk(s', t, r)
  {
    r.peer in s.peers && !WasMember(s, t, r) ==>
      s.peers[r.peer].queue.clock < s'.peers[r.peer].stamp[r.addr].ts
  }

  /** A transaction sealed since `s` got a timestamp beyond the clock its origin had in `s`. */
  ghost predicate SealedSince(s: State, s': State, t: nat)
    requires t in s'.txs
  {
    var tx := s'.txs[t];
    tx.sealed && tx.origin in s.peers && !Sealed(s, t) ==> s.peers[tx.origin].queue.clock < tx.timestamp
  }

  ghost predicate Later(s: State, s': State) {
    && s.peers.Keys <= s'.peers.Keys && s.txs.Keys <= s'.txs.Keys
    && (forall p {:trigger PeerLater(s.peers[p], s'.peers[p])} | p in s.peers ::
          PeerLater(s.peers[p], s'.peers[p]))
    && (forall t {:trigger TxLater(s.txs[t], s'.txs[t])} | t in s.txs :: TxLater(s.txs[t], s'.txs[t]))
    && (forall t, r {:trigger StagedSince(s, s', t, r)} {:trigger MemberOk(s', t, r)}
          | t in s'.txs && r in s'.txs[t].members :: MemberOk(s', t, r) && StagedSince(s, s', t, r))
    && (forall t {:trigger SealedSince(s, s', t)} | t in s'.txs :: SealedSince(s, s', t))
  }

  lemma AddLater(p: Peer, a: nat, group: nat, ts: nat)
    requires a in p.stamp ==> p.stamp[a].group == group && 0 < p.stamp[a].ts
    ensures PeerLater(p, AddNode(p, a, group, ts))
  {
  }

  /** Linking a fresh node, staged or not, only moves the peer on. */
  lemma LinkLater(p: Peer, a: nat, group: nat, ts: nat)
    requires a !in p.stamp
    ensures PeerLater(p, StagePeer(p, a, group, ts))
    ensures PeerLater(p, UnstagedPeer(p, a, group))
    ensures PeerLater(p, SyntheticPeer(p, a, group, ts))
  {
    AddLater(SyncPeer(p, ts), a, group, SyncPeer(p, ts).queue.clock + 1);
    AddLater(SyncPeer(p, ts), a, group, ts);
    AddLater(p.(queue := Tick(p.queue)), a, group, p.queue.clock + 2);
  }

  lemma StageStepLater(s: State, act: Action, q: nat)
    requires Inv(s) && Enabled(s, act) && q in s.peers && (act.StageSync? || act.StagePostponed?)
    ensures q in Apply(s, act).peers && PeerLater(s.peers[q], Apply(s, act).peers[q])
  {
    match act
    case StageSync(t, p, a) =>
      FreshIsUnstamped(s, p, a);
      LinkLater(s.peers[p], a, t, s.txs[t].timestamp);
    case StagePostponed(t) =>
      var r := s.txs[t].postponed[0];
      assert TxOk(s, t) && Waiting(s, t, r);
      LinkLater(s.peers[r.peer], r.addr, t, s.txs[t].timestamp);
  }

  lemma LinkStepLater(s: State, act: Action, q: nat)
    requires Inv(s) && Enabled(s, act) && q in s.peers && (act.Join? || act.CommitOne? || act.CommitUnstaged?)
    ensures q in Apply(s, act).peers && PeerLater(s.peers[q], Apply(s, act).peers[q])
  {
    match act
    case Join(whom, p, a) =>
      var g := JoinKey(s, whom).group;
      FreshIsUnstamped(s, p, a);
      LinkLater(s.peers[p], a, g, if JoinsAsync(s, whom) then s.txs[g].asyncTs else JoinTs(s, whom));
    case CommitOne(t) =>
      var r := s.txs[t].sync[0];
      ListedIsUsed(s, t, r);
      assert PeerOk(s.peers[r.peer]);
      AddLater(s.peers[r.peer], r.addr, t, s.txs[t].timestamp);
    case CommitUnstaged(p, a) =>
      FreshIsUnstamped(s, p, a);
      LinkLater(s.peers[p], a, p, 0);
  }

  lemma StepPeerLater(s: State, act: Action, q: nat)
    requires Inv(s) && Enabled(s, act) && q in s.peers
    ensures q in Apply(s, act).peers && PeerLater(s.peers[q], Apply(s, act).peers[q])
  {
    if act.StageSync? || act.StagePostponed? {
      StageStepLater(s, act, q);
    } else if act.Join? || act.CommitOne? || act.CommitUnstaged? {
      LinkStepLater(s, act, q);
    }
  }

  lemma StepTxLater(s: State, act: Action, t: nat)
    requires Enabled(s, act) && t in Apply(s, act).txs
    ensures t in s.txs ==> TxLater(s.txs[t], Apply(s, act).txs[t])
    ensures SealedSince(s, Apply(s, act), t)
  {
  }

  lemma StageMembers(s: State, s': State, t: nat, r: Ref, async: bool)
    requires t in s.txs && r.peer in s.peers && s' == DoStage(s, t, r, async)
    requires r.addr !in s.peers[r.peer].stamp && r.addr !in s.peers[r.peer].queue.nodes
    ensures s'.txs[t].members == s.txs[t].members + {r}
    ensures MemberOk(s', t, r) && s.peers[r.peer].queue.clock < s'.peers[r.peer].stamp[r.addr].ts
  {
    StageEffect(s.peers[r.peer], r.addr, t, if async then s.txs[t].asyncTs else s.txs[t].timestamp);
  }

  /** An action adds at most one member, and that to one transaction. */
  lemma StepMember(s: State, act: Action, t: nat, r: Ref)
    requires Inv(s) && MembersInv(s) && Enabled(s, act)
    requires t in Apply(s, act).txs && r in Apply(s, act).txs[t].members
    ensures MemberOk(Apply(s, act), t, r) && StagedSince(s, Apply(s, act), t, r)
  {
    var s' := Apply(s, act);
    if WasMember(s, t, r) {
      assert MemberOk(s, t, r);
      StepPeerLater(s, act, r.peer);
    } else {
      assert PeerOk(s.peers[r.peer]);
      match act
      case StageSync(_, _, a) =>
        FreshIsUnstamped(s, r.peer, a);
        StageMembers(s, s', t, r, false);
      case StagePostponed(_) =>
        assert TxOk(s, t) && Waiting(s, t, r);
        var s1 := SetTx(s, t, s.txs[t].(postponed := s.txs[t].postponed[1..]));
        StageMembers(s1, s', t, r, false);
      case Join(whom, _, a) =>
        FreshIsUnstamped(s, r.peer, a);
        StageMembers(s, s', t, r, true);
    }
  }

  lemma StepLater(s: State, act: Action)
    requires Inv(s) && MembersInv(s) && Enabled(s, act)
    ensures Later(s, Apply(s, act)) && MembersInv(Apply(s, act))
  {
    var s' := Apply(s, act);
    forall p | p in s.peers ensures p in s'.peers && PeerLater(s.peers[p], s'.peers[p]) {
      StepPeerLater(s, act, p);
    }
    forall t | t in s'.txs ensures t in s.txs ==> TxLater(s.txs[t], s'.txs[t]) ensures SealedSince(s, s', t) {
      StepTxLater(s, act, t);
    }
    forall t, r | t in s'.txs && r in s'.txs[t].members ensures MemberOk(s', t, r) && StagedSince(s, s', t, r) {
      StepMember(s, act, t, r);
    }
  }

  lemma LaterIsTransitive(s: State, s': State, s'': State)
    requires Later(s, s') && Later(s', s'')
    ensures Later(s, s'')
  {
    forall p | p in s.peers ensures PeerLater(s.peers[p], s''.peers[p]) {
      assert PeerLater(s.peers[p], s'.peers[p]) && PeerLater(s'.peers[p], s''.peers[p]);
    }
    forall t | t in s.txs ensures TxLater(s.txs[t], s''.txs[t]) {
      assert TxLater(s.txs[t], s'.txs[t]) && TxLater(s'.txs[t], s''.txs[t]);
    }
    forall t | t in s''.txs ensures SealedSince(s, s'', t) {
      assert SealedSince(s', s'', t);
      if Sealed(s', t) {
        assert SealedSince(s, s', t) && TxLater(s'.txs[t], s''.txs[t]);
      } else {
        var o := s''.txs[t].origin;
        assert o in s.peers ==> PeerLater(s.peers[o], s'.peers[o]);
        assert t in s.txs ==> TxLater(s.txs[t], s'.txs[t]);
      }
    }
    forall t, r | t in s''.txs && r in s''.txs[t].members ensures MemberOk(s'', t, r) && StagedSince(s, s'', t, r) {
      assert MemberOk(s'', t, r) && StagedSince(s', s'', t, r);
      if WasMember(s', t, r) {
        assert MemberOk(s', t, r) && StagedSince(s, s', t, r) && PeerLater(s'.peers[r.peer], s''.peers[r.peer]);
      } else {
        assert r.peer in s.peers ==> PeerLater(s.peers[r.peer], s'.peers[r.peer]);
        assert t in s.txs ==> TxLater(s.txs[t], s'.txs[t]);
      }
    }
  }

  // ----- over whole runs

  /** The invariants hold in every state of every run. */
  lemma {:induction false} RunInv(states: seq<State>, acts: seq<Action>, i: nat)
    requires Run(states, acts) && i <= |acts|
    ensures AllInv(states[i])
  {
    if i > 0 {
      RunInv(states, acts, i - 1);
      StepKeeps(states[i - 1], acts[i - 1]);
      StepKeepsMore(states[i - 1], acts[i - 1]);
      StepKeepsOnce(states[i - 1], acts[i - 1]);
      StepLater(states[i - 1], acts[i - 1]);
    }
  }

  /** In every run, a later state is later. */
  lemma {:induction false} RunLater(states: seq<State>, acts: seq<Action>, i: nat, j: nat)
    requires Run(states, acts) && i <= j <= |acts|
    ensures Later(states[i], states[j])
    decreases j - i
  {
    if i == j {
      RunInv(states, acts, i);
      LaterIsReflexive(states[i]);
    } else {
      RunLater(states, acts, i, j - 1);
      RunInv(states, acts, j - 1);
      StepLater(states[j - 1], acts[j - 1]);
      LaterIsTransitive(states[i], states[j - 1], states[j]);
    }
  }

  lemma LaterIsReflexive(s: State)
    requires MembersInv(s)
    ensures Later(s, s)
  {
    assert forall t, r | t in s.txs && r in s.txs[t].members :: MemberOk(s, t, r);
  }
}
