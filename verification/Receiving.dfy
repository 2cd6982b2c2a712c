/** Who can meet a wrong continuation flag: users of a queue that peek and remove an entry of a
    transaction that can be joined in two sections, and not the way the bus receives. */
module Receiving {
  import opened QueueSpec
  import opened Protocol
  import opened ProtocolMore
  import opened ProtocolRuns
  import opened Ordering

  /** The way the bus receives. Only transactions in `joined` are ever joined (those that destroy
      nodes), and their entries (notifications) are removed in the section that peeks them. */
  ghost predicate AsTheBus(s: State, act: Action, joined: set<nat>) {
    match act
    case Join(whom, _, _) => Joinable(s, whom) && JoinKey(s, whom).group in joined
    case Peek(p, a) => p in s.peers && a in s.peers[p].queue.nodes && s.peers[p].queue.nodes[a].group !in joined
    case _ => true
  }

  ghost predicate BusRun(states: seq<State>, acts: seq<Action>, joined: set<nat>) {
    Run(states, acts) && forall i | 0 <= i < |acts| :: AsTheBus(states[i], acts[i], joined)
  }

  ghost predicate NotMisled(p: Peer, joined: set<nat>) {
    !p.misled && (p.pending.Some? ==> p.pending.value.key.group !in joined)
  }

  ghost predicate NobodyMisled(s: State, joined: set<nat>) {
    forall p {:trigger NotMisled(s.peers[p], joined)} | p in s.peers :: NotMisled(s.peers[p], joined)
  }

  lemma StepMisleadsNobody(s: State, act: Action, joined: set<nat>)
    requires Enabled(s, act) && AsTheBus(s, act, joined) && NobodyMisled(s, joined)
    ensures NobodyMisled(Apply(s, act), joined)
  {
    var s' := Apply(s, act);
    forall p | p in s'.peers ensures NotMisled(s'.peers[p], joined) {
      assert p in s.peers ==> NotMisled(s.peers[p], joined);
    }
  }

  lemma {:induction false} BusMisleadsNobody(states: seq<State>, acts: seq<Action>, joined: set<nat>, i: nat)
    requires BusRun(states, acts, joined) && i <= |acts|
    ensures NobodyMisled(states[i], joined)
  {
    if i > 0 {
      BusMisleadsNobody(states, acts, joined, i - 1);
      StepMisleadsNobody(states[i - 1], acts[i - 1], joined);
    }
  }

  /** As the bus receives, an entry handed out without `more` is the last of its transaction for good;
      and unless a discard took what was to follow, `more` means that the next entry belongs to it. */
  lemma BusMoreIsExact(states: seq<State>, acts: seq<Action>, joined: set<nat>, i: nat, p: nat, m: nat, n: nat)
    requires BusRun(states, acts, joined) && i <= |acts| && p in states[i].peers
    requires m < n < |states[i].peers[p].hist|
    ensures var h := states[i].peers[p].hist;
            && (h[m].key == h[n].key ==> h[m].more)
            && (!states[i].peers[p].cut ==> (h[m].more <==> h[m].key == h[m + 1].key))
  {
    BusMisleadsNobody(states, acts, joined, i);
    assert NotMisled(states[i].peers[p], joined);
    RunInv(states, acts, i);
    assert MoreOk(states[i].peers[p]);
    if !states[i].peers[p].cut { MoreIsExact(states, acts, i, p, m); }
  }

  // ----- runs with a wrong flag

  lemma Extend(states: seq<State>, acts: seq<Action>, act: Action) returns (states': seq<State>, acts': seq<Action>)
    requires Run(states, acts) && Enabled(states[|acts|], act)
    ensures Run(states', acts') && states'[|acts'|] == Apply(states[|acts|], act)
  {
    states', acts' := states + [Apply(states[|acts|], act)], acts + [act];
  }

  /** Extends a run as the bus, in which only transaction 10 is joined. */
  lemma ExtendBus(states: seq<State>, acts: seq<Action>, act: Action) returns (states': seq<State>, acts': seq<Action>)
    requires BusRun(states, acts, {10}) && Enabled(states[|acts|], act) && AsTheBus(states[|acts|], act, {10})
    ensures BusRun(states', acts', {10}) && states'[|acts'|] == Apply(states[|acts|], act)
  {
    states', acts' := states + [Apply(states[|acts|], act)], acts + [act];
  }

  /** A peer whose only entry is `a`, with nothing dequeued or peeked. */
  ghost predicate Holds(p: Peer, clock: nat, a: nat, k: Key) {
    && p.queue.clock == clock && p.queue.nodes == map[a := k] && p.stamp == map[a := k]
    && p.hist == [] && p.pending.None? && !p.cut
  }

  /** Peers 1 and 2 each hold one entry of transaction 10. */
  ghost predicate Holding(s: State, clock1: nat, ts1: nat, clock2: nat, ts2: nat, sync: seq<Ref>, cursor: nat) {
    && 1 in s.peers && 2 in s.peers && 10 in s.txs && 3 !in s.used && 8 !in s.used
    && Holds(s.peers[1], clock1, 5, Key(ts1, 10)) && Holds(s.peers[2], clock2, 6, Key(ts2, 10))
    && var tx := s.txs[10];
    && tx.origin == 1 && tx.async == [] && tx.postponed == [] && tx.asyncTs == 0
    && tx.sync == sync && tx.cursor == cursor && (tx.sealed ==> tx.timestamp == 2) && (!tx.sealed ==> tx.timestamp == 0)
  }

  lemma Links(p: Peer, a: nat)
    requires p == EmptyPeer
    ensures Holds(StagePeer(p, a, 10, 0), 0, a, Key(1, 10))
  {
  }

  const NewTx := Tx(1, [], [], [], false, 0, 0, 0, {}, false)

  lemma StageFirst() returns (states: seq<State>, acts: seq<Action>)
    ensures BusRun(states, acts, {10})
    ensures var s := states[|acts|];
            && 1 in s.peers && 2 in s.peers && 10 in s.txs && 3 !in s.used && 8 !in s.used && 6 !in s.used
            && Holds(s.peers[1], 0, 5, Key(1, 10)) && s.peers[2] == EmptyPeer
            && s.txs[10] == NewTx.(sync := [Ref(1, 5)], members := {Ref(1, 5)})
  {
    states, acts := [Init], [];
    states, acts := ExtendBus(states, acts, NewPeer(1));
    states, acts := ExtendBus(states, acts, NewPeer(2));
    states, acts := ExtendBus(states, acts, Begin(10, 1));
    Links(EmptyPeer, 5);
    states, acts := ExtendBus(states, acts, StageSync(10, 1, 5));
  }

  lemma StageBoth() returns (states: seq<State>, acts: seq<Action>)
    ensures BusRun(states, acts, {10}) && Open(states[|acts|], 10)
    ensures Holding(states[|acts|], 0, 1, 0, 1, [Ref(2, 6), Ref(1, 5)], 0)
  {
    states, acts := StageFirst();
    Links(EmptyPeer, 6);
    states, acts := ExtendBus(states, acts, StageSync(10, 2, 6));
  }

  lemma SealAndSync() returns (states: seq<State>, acts: seq<Action>)
    ensures BusRun(states, acts, {10}) && Sealed(states[|acts|], 10)
    ensures Holding(states[|acts|], 2, 1, 2, 1, [Ref(2, 6), Ref(1, 5)], 2)
  {
    states, acts := StageBoth();
    states, acts := ExtendBus(states, acts, Seal(10));
    states, acts := ExtendBus(states, acts, SyncOne(10));
    states, acts := ExtendBus(states, acts, SyncOne(10));
  }

  lemma Commits(p: Peer, a: nat)
    requires Holds(p, 2, a, Key(1, 10))
    ensures Holds(AddNode(p, a, 10, 2), 2, a, Key(2, 10))
  {
  }

  lemma CommitBoth() returns (states: seq<State>, acts: seq<Action>)
    ensures BusRun(states, acts, {10}) && Sealed(states[|acts|], 10) && Holding(states[|acts|], 2, 2, 2, 2, [], 0)
  {
    states, acts := SealAndSync();
    Commits(states[|acts|].peers[2], 6);
    Commits(states[|acts|].peers[1], 5);
    states, acts := ExtendBus(states, acts, CommitOne(10));
    states, acts := ExtendBus(states, acts, CommitOne(10));
  }

  /** The late join gets in front of the entry peeked as the last one. */
  lemma Ties(p: Peer)
    requires Holds(p, 2, 6, Key(2, 10))
    ensures IsFront(p.queue, 6)
    ensures var q := SyntheticPeer(PeekPeer(p, 6), 3, 10, 2);
            && q.pending.Some? && q.pending.value == Item(Key(2, 10), 6, false)
            && q.hist == [] && !q.cut && q.queue.nodes == map[3 := Key(2, 10), 6 := Key(2, 10)]
  {
    var q := PeekPeer(p, 6).queue;
    assert q == Sync(q, 2) && IsLeftmost(q, 6) && TieJoin(q, 3, Key(2, 10));
  }

  lemma TakesBoth(p: Peer)
    requires p.pending.Some? && p.pending.value == Item(Key(2, 10), 6, false)
    requires p.hist == [] && !p.cut && p.queue.nodes == map[3 := Key(2, 10), 6 := Key(2, 10)]
    ensures IsFront(TakePeer(p).queue, 3)
    ensures var q := TakePeer(PeekPeer(TakePeer(p), 3));
            !q.cut && |q.hist| == 2 && q.hist[0] == Item(Key(2, 10), 6, false) && q.hist[1].key == Key(2, 10)
  {
  }

  /** An entry is peeked as the last one of its transaction, a late join gets in front of it before it
      is removed, and so another entry of the transaction follows. */
  lemma WrongFlag() returns (states: seq<State>, acts: seq<Action>)
    ensures Run(states, acts) && 2 in states[|acts|].peers && !states[|acts|].peers[2].cut
    ensures var h := states[|acts|].peers[2].hist;
            |h| == 2 && h[0].key == h[1].key && !h[0].more
  {
    states, acts := CommitBoth();
    Ties(states[|acts|].peers[2]);
    states, acts := Extend(states, acts, Peek(2, 6));
    states, acts := Extend(states, acts, Join(Ref(1, 5), 2, 3));
    TakesBoth(states[|acts|].peers[2]);
    states, acts := Extend(states, acts, Take(2));
    states, acts := Extend(states, acts, Peek(2, 3));
    states, acts := Extend(states, acts, Take(2));
  }

  /** A late join without anything peeked, the entry it links, and the discard of the other one. */
  lemma CutsOff(p: Peer)
    requires Holds(p, 2, 6, Key(2, 10))
    ensures var q := SyntheticPeer(p, 3, 10, 2);
            && q.stamp.Keys == {3, 6} && q.queue.nodes == map[3 := Key(2, 10), 6 := Key(2, 10)] && IsFront(q.queue, 3)
            && q.queue.clock == 2 && var r := DiscardPeer(ReceivePeer(q, 3), {6});
            && r.hist == [Item(Key(2, 10), 3, true)] && r.queue == QueueState(2, map[]) && r.stamp == q.stamp
  {
    assert p.queue == Sync(p.queue, 2) && IsLeftmost(p.queue, 6) && TieJoin(p.queue, 3, Key(2, 10));
    var q := SyntheticPeer(p, 3, 10, 2);
    assert 6 in q.queue.nodes && q.queue.nodes[6] == q.queue.nodes[3];
  }

  lemma TakesNext(p: Peer)
    requires p.queue == QueueState(2, map[]) && p.hist == [Item(Key(2, 10), 3, true)] && 8 !in p.stamp
    ensures var q := UnstagedPeer(p, 8, 2);
            && IsFront(q.queue, 8)
            && var h := ReceivePeer(q, 8).hist; |h| == 2 && h[0] == Item(Key(2, 10), 3, true) && h[1].key == Key(4, 2)
  {
  }

  lemma JoinLate() returns (states: seq<State>, acts: seq<Action>, p: Peer)
    ensures BusRun(states, acts, {10}) && Holds(p, 2, 6, Key(2, 10))
    ensures var s := states[|acts|]; 2 in s.peers && 8 !in s.used && s.peers[2] == SyntheticPeer(p, 3, 10, 2)
  {
    states, acts := CommitBoth();
    p := states[|acts|].peers[2];
    states, acts := ExtendBus(states, acts, Join(Ref(1, 5), 2, 3));
  }

  lemma CutOff() returns (states: seq<State>, acts: seq<Action>)
    ensures BusRun(states, acts, {10})
    ensures var s := states[|acts|];
            && 2 in s.peers && 8 !in s.used && 8 !in s.peers[2].stamp
            && s.peers[2].queue == QueueState(2, map[]) && s.peers[2].hist == [Item(Key(2, 10), 3, true)]
  {
    var p;
    states, acts, p := JoinLate();
    CutsOff(p);
    states, acts := ExtendBus(states, acts, Receive(2, 3));
    states, acts := ExtendBus(states, acts, Discard(2, {6}));
  }

  /** The bus can hand out an entry with `more` although nothing of its transaction follows: the entry
      that should is discarded in between. */
  lemma CutContinuation() returns (states: seq<State>, acts: seq<Action>)
    ensures BusRun(states, acts, {10}) && 2 in states[|acts|].peers
    ensures var h := states[|acts|].peers[2].hist;
            |h| == 2 && h[0].key != h[1].key && h[0].more
  {
    states, acts := CutOff();
    TakesNext(states[|acts|].peers[2]);
    states, acts := ExtendBus(states, acts, CommitUnstaged(2, 8));
    states, acts := ExtendBus(states, acts, Receive(2, 8));
  }
}
