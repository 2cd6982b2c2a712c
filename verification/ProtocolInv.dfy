/** What every action keeps, and so what holds in every reachable state. */
module ProtocolInv {
  import opened QueueSpec
  import opened Protocol

  // ----- what holds of one peer

  ghost predicate NodesOk(p: Peer) {
    forall a | a in p.queue.nodes ::
      && a in p.stamp && p.stamp[a] == p.queue.nodes[a]
      && 0 < p.queue.nodes[a].ts <= p.queue.clock + 1
  }

  ghost predicate ItemOk(p: Peer, e: Item) {
    && e.addr in p.stamp && p.stamp[e.addr] == e.key
    && 0 < e.key.ts <= p.queue.clock && !Staging(e.key)
  }

  ghost predicate PendingOk(p: Peer) {
    p.pending.Some? ==>
      var e := p.pending.value;
      && e.addr in p.queue.nodes && p.queue.nodes[e.addr] == e.key && !Staging(e.key)
      && forall b | b in p.queue.nodes :: Le(e.key, p.queue.nodes[b])
  }

  /** Nothing queued, now or later, sorts below what was already dequeued. */
  ghost predicate Ordered(p: Peer) {
    && (forall i, j | 0 <= i < j < |p.hist| :: Le(p.hist[i].key, p.hist[j].key))
    && (forall i, a | 0 <= i < |p.hist| && a in p.queue.nodes :: Le(p.hist[i].key, p.queue.nodes[a]))
  }

  ghost predicate PeerOk(p: Peer) {
    && p.queue.clock % 2 == 0
    && NodesOk(p)
    && (forall e | e in p.hist :: ItemOk(p, e))
    && PendingOk(p)
    && Ordered(p)
  }

  lemma SyncKeeps(p: Peer, ts: nat)
    requires PeerOk(p) && ts % 2 == 0
    ensures PeerOk(SyncPeer(p, ts))
  {
    assert forall e | e in p.hist :: ItemOk(p, e);
  }

  lemma AddKeeps(p: Peer, a: nat, group: nat, ts: nat)
    requires PeerOk(p)
    requires AddGuards(p.queue, a, Stamp(p, a), ts)
    requires forall i | 0 <= i < |p.hist| :: Le(p.hist[i].key, Key(ts, group))
    requires p.pending.Some? ==> Le(p.pending.value.key, Key(ts, group))
    ensures PeerOk(AddNode(p, a, group, ts))
  {
    forall e | e in p.hist ensures ItemOk(AddNode(p, a, group, ts), e) {
      assert ItemOk(p, e);
    }
  }

  /** A peer with one more node `a` of key `k`, at a clock moved to `clock`. */
  function Linked(p: Peer, clock: nat, a: nat, k: Key): Peer {
    p.(queue := QueueState(clock, p.queue.nodes[a := k]), stamp := p.stamp[a := k])
  }

  /** Staging a node never trips a guard. */
  lemma StageEffect(p: Peer, a: nat, group: nat, ts: nat)
    requires a !in p.stamp && a !in p.queue.nodes
    ensures var clock := Max(p.queue.clock, ts);
            StagePeer(p, a, group, ts) == Linked(p, clock, a, Key(clock + 1, group))
  {
  }

  lemma StageKeeps(p: Peer, a: nat, group: nat, ts: nat)
    requires PeerOk(p) && ts % 2 == 0 && a !in p.stamp
    ensures PeerOk(StagePeer(p, a, group, ts))
  {
    SyncKeeps(p, ts);
    var s := SyncPeer(p, ts);
    forall i | 0 <= i < |s.hist| ensures Le(s.hist[i].key, Key(s.queue.clock + 1, group)) {
      assert ItemOk(s, s.hist[i]);
    }
    AddKeeps(s, a, group, s.queue.clock + 1);
  }

  lemma UnstagedKeeps(p: Peer, a: nat, group: nat)
    requires PeerOk(p) && a !in p.stamp
    ensures var p' := UnstagedPeer(p, a, group);
            && PeerOk(p') && p'.queue.clock == p.queue.clock + 2
            && p'.queue.nodes == p.queue.nodes[a := Key(p'.queue.clock, group)]
            && p'.stamp == p.stamp[a := Key(p'.queue.clock, group)]
  {
    SyncKeeps(p, p.queue.clock + 2);
    var s := SyncPeer(p, p.queue.clock + 2);
    forall i | 0 <= i < |s.hist| ensures Le(s.hist[i].key, Key(s.queue.clock, group)) {
      assert ItemOk(p, p.hist[i]);
    }
    AddKeeps(s, a, group, s.queue.clock);
  }

  /** A staging node only moves up when it is committed, so it stays above everything dequeued. */
  lemma CommitKeeps(p: Peer, a: nat, group: nat, ts: nat)
    requires PeerOk(p) && a in p.queue.nodes && Staging(p.queue.nodes[a])
    requires p.queue.nodes[a].ts < ts <= p.queue.clock
    ensures var p' := AddNode(p, a, group, ts);
            && PeerOk(p') && p'.queue.clock == p.queue.clock
            && p'.queue.nodes == p.queue.nodes[a := Key(ts, group)]
            && p'.stamp == p.stamp[a := Key(ts, group)]
  {
    AddKeeps(p, a, group, ts);
  }

  lemma SyntheticKeeps(p: Peer, a: nat, group: nat, ts: nat)
    requires PeerOk(p) && 0 < ts && ts % 2 == 0 && a !in p.stamp
    ensures var p' := SyntheticPeer(p, a, group, ts);
            var ok := Accepts(Sync(p.queue, ts), a, Key(ts, group));
            && PeerOk(p') && p'.queue.clock == Max(p.queue.clock, ts)
            && p'.queue.nodes == (if ok then p.queue.nodes[a := Key(ts, group)] else p.queue.nodes)
            && p'.stamp == (if ok then p.stamp[a := Key(ts, group)] else p.stamp)
  {
    SyncKeeps(p, ts);
    var s := SyncPeer(p, ts);
    if Accepts(s.queue, a, Key(ts, group)) {
      var m :| m in s.queue.nodes && IsLeftmost(s.queue, m) && Le(s.queue.nodes[m], Key(ts, group));
      AddKeeps(s, a, group, ts);
    }
  }

  lemma PeekKeeps(p: Peer, a: nat)
    requires PeerOk(p) && IsFront(p.queue, a)
    ensures PeerOk(PeekPeer(p, a))
  {
    assert forall e | e in p.hist :: ItemOk(p, e);
  }

  lemma TakeKeeps(p: Peer)
    requires PeerOk(p) && p.pending.Some?
    ensures PeerOk(TakePeer(p))
  {
    assert forall e | e in p.hist :: ItemOk(p, e);
  }

  lemma DiscardKeeps(p: Peer, gone: set<nat>)
    requires PeerOk(p)
    ensures PeerOk(DiscardPeer(p, gone))
  {
    assert forall e | e in p.hist :: ItemOk(p, e);
  }

  // ----- what holds of one transaction, and of the nodes it staged

  /** A node on a transaction's list is linked as a staging entry of that transaction. */
  ghost predicate RefOk(s: State, t: nat, r: Ref) {
    && r.peer in s.peers && r.addr in s.peers[r.peer].queue.nodes
    && s.peers[r.peer].queue.nodes[r.addr].group == t && Staging(s.peers[r.peer].queue.nodes[r.addr])
  }

  /** The staging timestamp of a listed node stays below the commit timestamp. */
  ghost predicate BoundOk(s: State, t: nat, r: Ref)
    requires t in s.txs && RefOk(s, t, r)
  {
    var ts := s.peers[r.peer].queue.nodes[r.addr].ts;
    if s.txs[t].sealed then ts < s.txs[t].timestamp else ts <= Floor(s.txs[t]) + 1
  }

  ghost predicate Listed(tx: Tx, r: Ref) {
    r in tx.sync || r in tx.async
  }

  ghost predicate ListsOk(tx: Tx) {
    && (forall i, j | 0 <= i < j < |tx.sync| :: tx.sync[i] != tx.sync[j])
    && (forall i, j | 0 <= i < j < |tx.async| :: tx.async[i] != tx.async[j])
    && (forall r | r in tx.sync :: r !in tx.async)
    && (forall i, j | 0 <= i < j < |tx.postponed| :: tx.postponed[i].addr != tx.postponed[j].addr)
    && (forall r | Listed(tx, r) :: r in tx.members)
    && (!tx.committing ==> forall r | r in tx.members :: Listed(tx, r))
  }

  ghost predicate FieldsOk(tx: Tx) {
    && tx.timestamp % 2 == 0 && tx.asyncTs % 2 == 0
    && tx.cursor <= |tx.sync|
    && (!tx.sealed ==> tx.cursor == 0 && !tx.committing)
    && (tx.sealed ==> tx.postponed == [] && tx.asyncTs < tx.timestamp)
    && (tx.committing ==> tx.async == [] && tx.cursor == |tx.sync|)
  }

  ghost predicate Waiting(s: State, t: nat, r: Ref) {
    && r.peer in s.peers && r.addr in s.used && s.used[r.addr] == t
    && forall p | p in s.peers :: r.addr !in s.peers[p].stamp
  }

  ghost predicate SyncedTo(s: State, p: nat, ts: nat) {
    p in s.peers && ts <= s.peers[p].queue.clock
  }

  ghost predicate TxOk(s: State, t: nat)
    requires t in s.txs
  {
    var tx := s.txs[t];
    && tx.origin in s.peers
    && FieldsOk(tx) && ListsOk(tx)
    && (forall r | Listed(tx, r) :: RefOk(s, t, r) && BoundOk(s, t, r))
    && (forall r | r in tx.postponed :: Waiting(s, t, r))
    && (tx.sealed ==> forall i | 0 <= i < tx.cursor :: SyncedTo(s, tx.sync[i].peer, tx.timestamp))
    && (tx.committing ==> forall r | r in tx.members :: SyncedTo(s, r.peer, tx.timestamp))
  }

  /** Every stamped node is a listed staging entry, or carries its transaction's commit key, or is a
      unicast of the peer itself. */
  ghost predicate StampOk(s: State, p: nat, a: nat)
    requires p in s.peers && a in s.peers[p].stamp
  {
    var k := s.peers[p].stamp[a];
    && a in s.used && s.used[a] == k.group && 0 < k.ts
    && (if Staging(k)
        then a in s.peers[p].queue.nodes && k.group in s.txs && Listed(s.txs[k.group], Ref(p, a))
        else k.group == p || (Sealed(s, k.group) && s.txs[k.group].timestamp == k.ts))
  }

  ghost predicate Inv(s: State) {
    && s.txs.Keys !! s.peers.Keys
    && (forall p {:trigger PeerOk(s.peers[p])} | p in s.peers :: PeerOk(s.peers[p]))
    && (forall t {:trigger TxOk(s, t)} | t in s.txs :: TxOk(s, t))
    && (forall p, a {:trigger StampOk(s, p, a)} | p in s.peers && a in s.peers[p].stamp :: StampOk(s, p, a))
  }

  /** From `s` to `s'` no peer vanished and no clock went back. */
  ghost predicate ClocksGrow(s: State, s': State) {
    forall p | p in s.peers :: p in s'.peers && s.peers[p].queue.clock <= s'.peers[p].queue.clock
  }

  ghost predicate SameNode(s: State, s': State, r: Ref)
    requires r.peer in s.peers && r.addr in s.peers[r.peer].queue.nodes
  {
    && r.peer in s'.peers && r.addr in s'.peers[r.peer].queue.nodes
    && s'.peers[r.peer].queue.nodes[r.addr] == s.peers[r.peer].queue.nodes[r.addr]
  }

  /** A transaction is not disturbed by steps that leave its own nodes alone. */
  lemma TxFrame(s: State, s': State, t: nat)
    requires t in s.txs && TxOk(s, t) && ClocksGrow(s, s')
    requires t in s'.txs && s'.txs[t] == s.txs[t]
    requires forall r | Listed(s.txs[t], r) :: RefOk(s, t, r) && SameNode(s, s', r)
    requires forall r | r in s.txs[t].postponed :: Waiting(s', t, r)
    ensures TxOk(s', t)
  {
    var tx := s.txs[t];
    forall r | Listed(tx, r) ensures RefOk(s', t, r) && BoundOk(s', t, r) {
      assert SameNode(s, s', r) && BoundOk(s, t, r);
    }
    if tx.sealed {
      forall i | 0 <= i < tx.cursor ensures SyncedTo(s', tx.sync[i].peer, tx.timestamp) {
        assert SyncedTo(s, tx.sync[i].peer, tx.timestamp);
      }
    }
    if tx.committing {
      forall r | r in tx.members ensures SyncedTo(s', r.peer, tx.timestamp) {
        assert SyncedTo(s, r.peer, tx.timestamp);
      }
    }
  }

  /** A peer changed in its `touched` nodes only, except that committed entries may have left. */
  ghost predicate Only(p: Peer, p': Peer, touched: set<nat>) {
    && p.queue.clock <= p'.queue.clock
    && (forall b | b in p.queue.nodes && b !in touched && Staging(p.queue.nodes[b]) ::
          b in p'.queue.nodes && p'.queue.nodes[b] == p.queue.nodes[b])
    && (forall b | b in p.stamp && b !in touched :: b in p'.stamp && p'.stamp[b] == p.stamp[b])
    && (forall b | b in p'.stamp && b !in touched :: b in p.stamp)
  }

  ghost predicate KeepsTx(tx: Tx, tx': Tx, p: nat, touched: set<nat>) {
    && (forall r | Listed(tx, r) && !(r.peer == p && r.addr in touched) :: Listed(tx', r))
    && (tx.sealed ==> tx'.sealed && tx'.timestamp == tx.timestamp)
  }

  /** `s'` differs from `s` in peer `p` and transaction `t` only, and the nodes touched are of `t`. */
  ghost predicate LocalStep(s: State, s': State, p: nat, touched: set<nat>, t: nat) {
    && p in s.peers && p in s'.peers && s'.peers == s.peers[p := s'.peers[p]]
    && Only(s.peers[p], s'.peers[p], touched)
    && s'.txs.Keys == s.txs.Keys
    && (forall u | u in s.txs && u != t :: s'.txs[u] == s.txs[u])
    && (t in s.txs ==> KeepsTx(s.txs[t], s'.txs[t], p, touched))
    && (forall a | a in s.used :: a in s'.used && s'.used[a] == s.used[a])
    && (forall a | a in touched && a in s.used :: s.used[a] == t)
  }

  /** A listed node was handed to its own transaction and to nobody else. */
  lemma ListedIsUsed(s: State, t: nat, r: Ref)
    requires Inv(s) && t in s.txs && Listed(s.txs[t], r)
    ensures RefOk(s, t, r) && r.addr in s.peers[r.peer].stamp && r.addr in s.used && s.used[r.addr] == t
  {
    assert TxOk(s, t);
    assert PeerOk(s.peers[r.peer]);
    assert StampOk(s, r.peer, r.addr);
  }

  lemma OtherTxKept(s: State, s': State, p: nat, touched: set<nat>, t: nat, u: nat)
    requires Inv(s) && LocalStep(s, s', p, touched, t) && u in s.txs && u != t
    ensures TxOk(s', u)
  {
    assert TxOk(s, u);
    forall r | Listed(s.txs[u], r) ensures RefOk(s, u, r) && SameNode(s, s', r) {
      ListedIsUsed(s, u, r);
    }
    forall r | r in s.txs[u].postponed ensures Waiting(s', u, r) {
      assert Waiting(s, u, r);
    }
    TxFrame(s, s', u);
  }

  lemma OtherStampKept(s: State, s': State, p: nat, touched: set<nat>, t: nat, q: nat, a: nat)
    requires LocalStep(s, s', p, touched, t) && q in s.peers && !(q == p && a in touched)
    requires NodesOk(s.peers[q])
    requires a in s'.peers[q].stamp && a in s.peers[q].stamp ==> StampOk(s, q, a)
    ensures a in s'.peers[q].stamp ==> a in s.peers[q].stamp && StampOk(s', q, a)
  {
  }

  lemma LocalStepKeeps(s: State, s': State, p: nat, touched: set<nat>, t: nat)
    requires Inv(s) && LocalStep(s, s', p, touched, t)
    requires PeerOk(s'.peers[p])
    requires t in s.txs ==> TxOk(s', t)
    requires forall a | a in touched && a in s'.peers[p].stamp :: StampOk(s', p, a)
    ensures Inv(s')
  {
    forall q | q in s'.peers ensures PeerOk(s'.peers[q]) {
      if q != p { assert PeerOk(s.peers[q]); }
    }
    forall u | u in s'.txs ensures TxOk(s', u) {
      if u != t { OtherTxKept(s, s', p, touched, t, u); }
    }
    forall q, a | q in s'.peers && a in s'.peers[q].stamp ensures StampOk(s', q, a) {
      if !(q == p && a in touched) { assert PeerOk(s.peers[q]); OtherStampKept(s, s', p, touched, t, q, a); }
    }
  }

  // ----- one lemma per action

  lemma NewPeerKeeps(s: State, p: nat)
    requires Inv(s) && Enabled(s, NewPeer(p))
    ensures Inv(Apply(s, NewPeer(p)))
  {
    var s' := Apply(s, NewPeer(p));
    forall q | q in s'.peers ensures PeerOk(s'.peers[q]) {
      if q != p { assert PeerOk(s.peers[q]); }
    }
    forall t | t in s'.txs ensures TxOk(s', t) {
      assert TxOk(s, t);
      forall r | r in s.txs[t].postponed ensures Waiting(s', t, r) { assert Waiting(s, t, r); }
      TxFrame(s, s', t);
    }
    forall q, a | q in s'.peers && a in s'.peers[q].stamp ensures StampOk(s', q, a) {
      assert StampOk(s, q, a);
    }
  }

  lemma BeginKeeps(s: State, t: nat, origin: nat)
    requires Inv(s) && Enabled(s, Begin(t, origin))
    ensures Inv(Apply(s, Begin(t, origin)))
  {
    var s' := Apply(s, Begin(t, origin));
    forall q | q in s'.peers ensures PeerOk(s'.peers[q]) { assert PeerOk(s.peers[q]); }
    forall u | u in s'.txs ensures TxOk(s', u) {
      if u != t {
        assert TxOk(s, u);
        forall r | r in s.txs[u].postponed ensures Waiting(s', u, r) { assert Waiting(s, u, r); }
        TxFrame(s, s', u);
      }
    }
    forall q, a | q in s'.peers && a in s'.peers[q].stamp ensures StampOk(s', q, a) {
      assert StampOk(s, q, a);
    }
  }

  lemma PushKeepsLists(tx: Tx, r: Ref, ts: nat)
    requires ListsOk(tx) && !Listed(tx, r) && !tx.committing
    ensures ListsOk(PushSync(tx, r, ts)) && ListsOk(PushAsync(tx, r, ts))
  {
  }

  lemma PopKeepsLists(tx: Tx, tx': Tx)
    requires ListsOk(tx) && tx.sync != [] && tx.async == []
    requires tx'.sync == tx.sync[1..] && tx'.async == [] && tx'.postponed == tx.postponed
    requires tx'.members == tx.members && tx'.committing
    ensures ListsOk(tx')
    ensures forall x | Listed(tx', x) :: Listed(tx, x) && x != tx.sync[0]
    ensures forall x | Listed(tx, x) && x != tx.sync[0] :: Listed(tx', x)
  {
    assert tx.sync == [tx.sync[0]] + tx'.sync;
  }

  lemma StagedRef(s: State, s': State, t: nat, r: Ref, async: bool, x: Ref)
    requires t in s.txs && !s.txs[t].sealed && r.peer in s.peers && s.peers[r.peer].queue.clock % 2 == 0
    requires r.addr !in s.peers[r.peer].queue.nodes && r.addr !in s.peers[r.peer].stamp
    requires s.txs[t].timestamp % 2 == 0 && s.txs[t].asyncTs % 2 == 0
    requires s' == DoStage(s, t, r, async)
    requires x == r || (RefOk(s, t, x) && BoundOk(s, t, x))
    ensures RefOk(s', t, x) && BoundOk(s', t, x)
  {
    StageEffect(s.peers[r.peer], r.addr, t, if async then s.txs[t].asyncTs else s.txs[t].timestamp);
  }

  lemma StagedTx(s: State, s': State, t: nat, r: Ref, async: bool)
    requires t in s.txs && TxOk(s, t) && !s.txs[t].sealed && !Listed(s.txs[t], r)
    requires r.peer in s.peers && s.peers[r.peer].queue.clock % 2 == 0
    requires r.addr !in s.peers[r.peer].queue.nodes && r.addr !in s.peers[r.peer].stamp
    requires forall x | x in s.txs[t].postponed :: x.addr != r.addr
    requires s' == DoStage(s, t, r, async)
    ensures TxOk(s', t)
  {
    var tx, tx' := s.txs[t], s'.txs[t];
    PushKeepsLists(tx, r, s'.peers[r.peer].queue.clock);
    forall x | Listed(tx', x) ensures RefOk(s', t, x) && BoundOk(s', t, x) {
      StagedRef(s, s', t, r, async, x);
    }
    StageEffect(s.peers[r.peer], r.addr, t, if async then tx.asyncTs else tx.timestamp);
    forall x | x in tx'.postponed ensures Waiting(s', t, x) {
      assert Waiting(s, t, x);
    }
  }

  lemma StageIsLocal(s: State, s': State, t: nat, r: Ref, async: bool)
    requires t in s.txs && r.peer in s.peers && r.peer != t && !s.txs[t].sealed
    requires r.addr !in s.peers[r.peer].queue.nodes && r.addr !in s.peers[r.peer].stamp
    requires s.peers[r.peer].queue.clock % 2 == 0 && s.txs[t].timestamp % 2 == 0 && s.txs[t].asyncTs % 2 == 0
    requires r.addr in s.used ==> s.used[r.addr] == t
    requires s' == DoStage(s, t, r, async)
    ensures LocalStep(s, s', r.peer, {r.addr}, t)
    ensures StampOk(s', r.peer, r.addr)
  {
    StageEffect(s.peers[r.peer], r.addr, t, if async then s.txs[t].asyncTs else s.txs[t].timestamp);
  }

  lemma StageKeepsInv(s: State, s': State, t: nat, r: Ref, async: bool)
    requires Inv(s) && Open(s, t) && r.peer in s.peers && r.addr !in s.peers[r.peer].stamp
    requires forall x | x in s.txs[t].postponed :: x.addr != r.addr
    requires r.addr in s.used ==> s.used[r.addr] == t
    requires s' == DoStage(s, t, r, async)
    ensures Inv(s')
  {
    assert TxOk(s, t) && PeerOk(s.peers[r.peer]);
    if Listed(s.txs[t], r) { ListedIsUsed(s, t, r); }
    StageKeeps(s.peers[r.peer], r.addr, t, if async then s.txs[t].asyncTs else s.txs[t].timestamp);
    StagedTx(s, s', t, r, async);
    StageIsLocal(s, s', t, r, async);
    LocalStepKeeps(s, s', r.peer, {r.addr}, t);
  }

  lemma StageSyncKeeps(s: State, t: nat, p: nat, a: nat)
    requires Inv(s) && Enabled(s, StageSync(t, p, a))
    ensures Inv(Apply(s, StageSync(t, p, a)))
  {
    FreshIsUnstamped(s, p, a);
    forall x | x in s.txs[t].postponed ensures x.addr != a {
      assert TxOk(s, t) && Waiting(s, t, x);
    }
    StageKeepsInv(s, Apply(s, StageSync(t, p, a)), t, Ref(p, a), false);
  }

  lemma FreshIsUnstamped(s: State, p: nat, a: nat)
    requires Inv(s) && p in s.peers && a !in s.used
    ensures a !in s.peers[p].stamp
  {
    assert a in s.peers[p].stamp ==> StampOk(s, p, a);
  }

  lemma StageLaterKeeps(s: State, t: nat, p: nat, a: nat)
    requires Inv(s) && Enabled(s, StageLater(t, p, a))
    ensures Inv(Apply(s, StageLater(t, p, a)))
  {
    var s' := Apply(s, StageLater(t, p, a));
    assert TxOk(s, t) && PeerOk(s.peers[p]);
    forall x | x in s.txs[t].postponed ensures x.addr != a { assert Waiting(s, t, x); }
    assert ListsOk(s'.txs[t]);
    forall r | Listed(s'.txs[t], r) ensures RefOk(s', t, r) && BoundOk(s', t, r) {
      assert Listed(s.txs[t], r) && RefOk(s, t, r) && BoundOk(s, t, r);
    }
    forall r | r in s'.txs[t].postponed ensures Waiting(s', t, r) {
      if r == Ref(p, a) {
        forall q | q in s.peers ensures a !in s.peers[q].stamp { FreshIsUnstamped(s, q, a); }
      } else {
        assert Waiting(s, t, r);
      }
    }
    LocalStepKeeps(s, s', p, {}, t);
  }

  lemma StagePostponedKeeps(s: State, t: nat)
    requires Inv(s) && Enabled(s, StagePostponed(t))
    ensures Inv(Apply(s, StagePostponed(t)))
  {
    var tx := s.txs[t];
    var r := tx.postponed[0];
    var s1 := SetTx(s, t, tx.(postponed := tx.postponed[1..]));
    assert TxOk(s, t) && PeerOk(s.peers[r.peer]) && Waiting(s, t, r);
    forall x | Listed(s1.txs[t], x) ensures RefOk(s1, t, x) && BoundOk(s1, t, x) {
      assert Listed(tx, x) && RefOk(s, t, x) && BoundOk(s, t, x);
    }
    forall x | x in s1.txs[t].postponed ensures Waiting(s1, t, x) && x.addr != r.addr {
      assert Waiting(s, t, x);
    }
    LocalStepKeeps(s, s1, r.peer, {}, t);
    StageKeepsInv(s1, Apply(s, StagePostponed(t)), t, r, false);
  }

  lemma JoinKeeps(s: State, whom: Ref, p: nat, a: nat)
    requires Inv(s) && Enabled(s, Join(whom, p, a))
    ensures Inv(Apply(s, Join(whom, p, a)))
  {
    var s' := Apply(s, Join(whom, p, a));
    var k := JoinKey(s, whom);
    assert StampOk(s, whom.peer, whom.addr) && TxOk(s, k.group) && PeerOk(s.peers[p]);
    FreshIsUnstamped(s, p, a);
    if JoinsAsync(s, whom) {
      forall x | x in s.txs[k.group].postponed ensures x.addr != a {
        assert Waiting(s, k.group, x);
      }
      StageKeepsInv(s, s', k.group, Ref(p, a), true);
    } else {
      SyntheticKeeps(s.peers[p], a, k.group, JoinTs(s, whom));
      LocalStepKeeps(s, s', p, {a}, p);
    }
  }

  lemma SealKeeps(s: State, t: nat)
    requires Inv(s) && Enabled(s, Seal(t))
    ensures Inv(Apply(s, Seal(t)))
  {
    var s' := Apply(s, Seal(t));
    var o := s.txs[t].origin;
    assert TxOk(s, t) && PeerOk(s.peers[o]);
    SyncKeeps(s.peers[o], s'.txs[t].timestamp);
    forall r | Listed(s'.txs[t], r) ensures RefOk(s', t, r) && BoundOk(s', t, r) {
      assert Listed(s.txs[t], r) && RefOk(s, t, r) && BoundOk(s, t, r);
    }
    LocalStepKeeps(s, s', o, {}, t);
  }

  lemma SyncOneKeeps(s: State, t: nat)
    requires Inv(s) && Enabled(s, SyncOne(t))
    ensures Inv(Apply(s, SyncOne(t)))
  {
    var s' := Apply(s, SyncOne(t));
    var tx := s.txs[t];
    var p := tx.sync[tx.cursor].peer;
    assert TxOk(s, t) && PeerOk(s.peers[p]);
    SyncKeeps(s.peers[p], tx.timestamp);
    forall r | Listed(s'.txs[t], r) ensures RefOk(s', t, r) && BoundOk(s', t, r) {
      assert Listed(tx, r) && RefOk(s, t, r) && BoundOk(s, t, r);
    }
    forall i | 0 <= i < tx.cursor + 1 ensures SyncedTo(s', tx.sync[i].peer, tx.timestamp) {
      if i < tx.cursor { assert SyncedTo(s, tx.sync[i].peer, tx.timestamp); }
    }
    LocalStepKeeps(s, s', p, {}, t);
  }

  lemma SpliceKeeps(s: State, t: nat)
    requires Inv(s) && Enabled(s, Splice(t))
    ensures Inv(Apply(s, Splice(t)))
  {
    var s' := Apply(s, Splice(t));
    var tx, tx' := s.txs[t], s'.txs[t];
    assert TxOk(s, t) && PeerOk(s.peers[tx.origin]);
    forall r ensures Listed(tx', r) <==> Listed(tx, r) { }
    forall r | Listed(tx', r) ensures RefOk(s', t, r) && BoundOk(s', t, r) {
      assert Listed(tx, r) && RefOk(s, t, r) && BoundOk(s, t, r);
    }
    forall i | 0 <= i < tx'.cursor ensures SyncedTo(s', tx'.sync[i].peer, tx.timestamp) {
      assert SyncedTo(s, tx.sync[i].peer, tx.timestamp);
    }
    LocalStepKeeps(s, s', tx.origin, {}, t);
  }

  /** When the commit round may begin, the clocks of all destinations have been synced. */
  lemma MembersAreSynced(s: State, t: nat, r: Ref)
    requires t in s.txs && TxOk(s, t) && s.txs[t].sealed && r in s.txs[t].members
    requires s.txs[t].cursor == |s.txs[t].sync| && s.txs[t].async == []
    ensures SyncedTo(s, r.peer, s.txs[t].timestamp)
  {
    var tx := s.txs[t];
    if !tx.committing {
      assert Listed(tx, r);
      var i :| 0 <= i < |tx.sync| && tx.sync[i] == r;
      assert SyncedTo(s, tx.sync[i].peer, tx.timestamp);
    }
  }

  lemma CommittedTx(s: State, s': State, t: nat)
    requires Enabled(s, CommitOne(t)) && s' == Apply(s, CommitOne(t)) && TxOk(s, t)
    requires PeerOk(s.peers[s.txs[t].sync[0].peer])
    ensures TxOk(s', t)
    ensures PeerOk(s'.peers[s.txs[t].sync[0].peer])
  {
    var tx, tx' := s.txs[t], s'.txs[t];
    var r := tx.sync[0];
    assert Listed(tx, r) && RefOk(s, t, r) && BoundOk(s, t, r) && SyncedTo(s, r.peer, tx.timestamp);
    CommitKeeps(s.peers[r.peer], r.addr, t, tx.timestamp);
    PopKeepsLists(tx, tx');
    forall x | Listed(tx', x) ensures RefOk(s', t, x) && BoundOk(s', t, x) {
      assert RefOk(s, t, x) && BoundOk(s, t, x);
    }
    forall i | 0 <= i < tx'.cursor ensures SyncedTo(s', tx'.sync[i].peer, tx.timestamp) {
      assert SyncedTo(s, tx.sync[i + 1].peer, tx.timestamp);
    }
    forall x | x in tx'.members ensures SyncedTo(s', x.peer, tx.timestamp) {
      MembersAreSynced(s, t, x);
    }
  }

  lemma CommitOneKeeps(s: State, t: nat)
    requires Inv(s) && Enabled(s, CommitOne(t))
    ensures Inv(Apply(s, CommitOne(t)))
  {
    var s' := Apply(s, CommitOne(t));
    var tx := s.txs[t];
    var r := tx.sync[0];
    assert TxOk(s, t) && PeerOk(s.peers[r.peer]);
    CommittedTx(s, s', t);
    ListedIsUsed(s, t, r);
    assert BoundOk(s, t, r) && SyncedTo(s, r.peer, tx.timestamp);
    CommitKeeps(s.peers[r.peer], r.addr, t, tx.timestamp);
    PopKeepsLists(tx, s'.txs[t]);
    LocalStepKeeps(s, s', r.peer, {r.addr}, t);
  }

  lemma CommitUnstagedKeeps(s: State, p: nat, a: nat)
    requires Inv(s) && Enabled(s, CommitUnstaged(p, a))
    ensures Inv(Apply(s, CommitUnstaged(p, a)))
  {
    FreshIsUnstamped(s, p, a);
    assert PeerOk(s.peers[p]);
    UnstagedKeeps(s.peers[p], a, p);
    LocalStepKeeps(s, Apply(s, CommitUnstaged(p, a)), p, {a}, p);
  }

  lemma ReceiveKeeps(s: State, act: Action)
    requires Inv(s) && Enabled(s, act) && (act.Peek? || act.Take? || act.Receive? || act.Discard?)
    ensures Inv(Apply(s, act))
  {
    assert PeerOk(s.peers[act.p]);
    match act {
      case Peek(p, a) => PeekKeeps(s.peers[p], a);
      case Take(p) => TakeKeeps(s.peers[p]);
      case Receive(p, a) =>
        PeekKeeps(s.peers[p], a);
        TakeKeeps(PeekPeer(s.peers[p], a));
      case Discard(p, gone) => DiscardKeeps(s.peers[p], gone);
    }
    LocalStepKeeps(s, Apply(s, act), act.p, {}, act.p);
  }

  /** Every action keeps the invariant. */
  lemma StepKeeps(s: State, act: Action)
    requires Inv(s) && Enabled(s, act)
    ensures Inv(Apply(s, act))
  {
    match act
    case NewPeer(p) => NewPeerKeeps(s, p);
    case Begin(t, origin) => BeginKeeps(s, t, origin);
    case StageSync(t, p, a) => StageSyncKeeps(s, t, p, a);
    case StageLater(t, p, a) => StageLaterKeeps(s, t, p, a);
    case StagePostponed(t) => StagePostponedKeeps(s, t);
    case Join(whom, p, a) => JoinKeeps(s, whom, p, a);
    case Seal(t) => SealKeeps(s, t);
    case SyncOne(t) => SyncOneKeeps(s, t);
    case Splice(t) => SpliceKeeps(s, t);
    case CommitOne(t) => CommitOneKeeps(s, t);
    case CommitUnstaged(p, a) => CommitUnstagedKeeps(s, p, a);
    case Peek(p, a) => ReceiveKeeps(s, act);
    case Take(p) => ReceiveKeeps(s, act);
    case Receive(p, a) => ReceiveKeeps(s, act);
    case Discard(p, gone) => ReceiveKeeps(s, act);
  }
}
