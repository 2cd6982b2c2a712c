/** The transaction protocol as a transition system. Any number of peers, each with a queue, and any
    number of transactions run interleaved; every section under a data lock is one action. */
module Protocol {
  import opened Common
  import opened QueueSpec

  /** A queue node together with the peer whose queue it is meant for. */
  datatype Ref = Ref(peer: nat, addr: nat)

  /** An entry handed to the receiver, with the continuation flag it was handed out with. */
  datatype Item = Item(key: Key, addr: nat, more: bool)

  /** A peer. `stamp` is the timestamp and group field of every node that was ever linked here, which
      outlives the link. `hist` records what was dequeued, `pending` what was peeked and not yet
      removed; `misled` records that a late join ever got in front of an entry that was peeked as the
      last one of its transaction, `discarded` the nodes that were dropped unseen, and `cut` that the
      last sibling of an entry handed out with `more` ever was among them. */
  datatype Peer = Peer(
    queue: QueueState,
    stamp: map<nat, Key>,
    hist: seq<Item>,
    pending: Option<Item>,
    misled: bool,
    discarded: set<nat>,
    cut: bool)

  /** A transaction. `cursor` is the position of the sync round in `sync`; `members` records every
      node it ever staged and `committing` that its commit round has begun. */
  datatype Tx = Tx(
    origin: nat,
    sync: seq<Ref>,
    async: seq<Ref>,
    postponed: seq<Ref>,
    sealed: bool,
    timestamp: nat,
    asyncTs: nat,
    cursor: nat,
    members: set<Ref>,
    committing: bool)

  /** `used` holds the address of every node handed out so far, with the tag of the transaction (or, for a
      node that is committed unstaged, of the peer) it was handed to. */
  datatype State = State(peers: map<nat, Peer>, txs: map<nat, Tx>, used: map<nat, nat>)

  datatype Action =
    | NewPeer(p: nat)
    | Begin(t: nat, origin: nat)
    | StageSync(t: nat, p: nat, a: nat)
    | StageLater(t: nat, p: nat, a: nat)
    | StagePostponed(t: nat)
    | Join(whom: Ref, p: nat, a: nat)
    | Seal(t: nat)
    | SyncOne(t: nat)
    | Splice(t: nat)
    | CommitOne(t: nat)
    | CommitUnstaged(p: nat, a: nat)
    | Peek(p: nat, a: nat)
    | Take(p: nat)
    | Receive(p: nat, a: nat)
    | Discard(p: nat, gone: set<nat>)

  const Init := State(map[], map[], map[])

  const EmptyPeer := Peer(QueueState(0, map[]), map[], [], None, false, {}, false)

  // ----- operations on one peer

  function Stamp(p: Peer, a: nat): nat {
    if a in p.stamp then p.stamp[a].ts else 0
  }

  function SyncPeer(p: Peer, ts: nat): Peer {
    p.(queue := Sync(p.queue, ts))
  }

  function AddNode(p: Peer, a: nat, group: nat, timestamp: nat): Peer {
    if AddGuards(p.queue, a, Stamp(p, a), timestamp)
    then p.(queue := Add(p.queue, a, Stamp(p, a), group, timestamp), stamp := p.stamp[a := Key(timestamp, group)])
    else p
  }

  function StagePeer(p: Peer, a: nat, group: nat, ts: nat): Peer {
    var s := SyncPeer(p, ts);
    AddNode(s, a, group, s.queue.clock + 1)
  }

  function UnstagedPeer(p: Peer, a: nat, group: nat): Peer {
    var s := p.(queue := Tick(p.queue));
    AddNode(s, a, group, s.queue.clock)
  }

  /** The late join ties with the entry that was peeked as the last one of its transaction. */
  predicate Misleads(p: Peer, a: nat, k: Key) {
    TieJoin(p.queue, a, k) && p.pending.Some? && p.pending.value.key == k && !p.pending.value.more
  }

  /** The fallback of a late join: sync the clock, then try to slip in behind another entry. */
  function SyntheticPeer(p: Peer, a: nat, group: nat, ts: nat): Peer {
    var s := SyncPeer(p, ts);
    if Accepts(s.queue, a, Key(ts, group))
    then AddNode(s, a, group, ts).(misled := s.misled || Misleads(s, a, Key(ts, group)))
    else s
  }

  function PeekPeer(p: Peer, a: nat): Peer
    requires a in p.queue.nodes
  {
    p.(pending := Some(Item(p.queue.nodes[a], a, More(p.queue, a))))
  }

  function TakePeer(p: Peer): Peer
    requires p.pending.Some?
  {
    p.(queue := Remove(p.queue, p.pending.value.addr), hist := p.hist + [p.pending.value], pending := None)
  }

  /** Peeks and removes in one section, as is done with notifications. */
  function ReceivePeer(p: Peer, a: nat): Peer
    requires a in p.queue.nodes
  {
    TakePeer(PeekPeer(p, a))
  }

  /** Another entry with the key of `e` is queued and stays so. */
  predicate SiblingStays(p: Peer, e: Item, gone: set<nat>) {
    exists b :: b in p.queue.nodes && b !in gone && b != e.addr && p.queue.nodes[b] == e.key
  }

  /** The discard takes the last sibling of an entry that was handed out, or peeked, with `more`. */
  predicate Cuts(p: Peer, gone: set<nat>) {
    || (p.hist != [] && p.hist[|p.hist| - 1].more && !SiblingStays(p, p.hist[|p.hist| - 1], gone))
    || (p.pending.Some? && p.pending.value.more && p.pending.value.addr !in gone && !SiblingStays(p, p.pending.value, gone))
  }

  function DiscardPeer(p: Peer, gone: set<nat>): Peer {
    p.(queue := p.queue.(nodes := p.queue.nodes - gone),
       pending := if p.pending.Some? && p.pending.value.addr in gone then None else p.pending,
       discarded := p.discarded + gone,
       cut := p.cut || Cuts(p, gone))
  }

  // ----- operations on one transaction

  /** Pushes a freshly staged node; `ts` is the clock value the stage operation returned. */
  function PushSync(tx: Tx, r: Ref, ts: nat): Tx {
    tx.(sync := [r] + tx.sync, timestamp := ts, members := tx.members + {r})
  }

  function PushAsync(tx: Tx, r: Ref, ts: nat): Tx {
    tx.(async := [r] + tx.async, asyncTs := ts, members := tx.members + {r})
  }

  /** The timestamp every staged node of the transaction stays below (plus one). */
  function Floor(tx: Tx): nat {
    Max(tx.timestamp, tx.asyncTs)
  }

  predicate Open(s: State, t: nat) {
    t in s.txs && !s.txs[t].sealed
  }

  predicate Sealed(s: State, t: nat) {
    t in s.txs && s.txs[t].sealed
  }

  /** The key of the node a late join refers to. */
  predicate Joinable(s: State, whom: Ref) {
    && whom.peer in s.peers
    && whom.addr in s.peers[whom.peer].stamp
    && s.peers[whom.peer].stamp[whom.addr].group in s.txs
  }

  function JoinKey(s: State, whom: Ref): Key
    requires Joinable(s, whom)
  {
    s.peers[whom.peer].stamp[whom.addr]
  }

  /** The joined transaction is still taking nodes. */
  predicate JoinsAsync(s: State, whom: Ref)
    requires Joinable(s, whom)
  {
    Staging(JoinKey(s, whom)) && !s.txs[JoinKey(s, whom).group].sealed
  }

  /** The timestamp a join falls back to when it comes too late for staging. */
  function JoinTs(s: State, whom: Ref): nat
    requires Joinable(s, whom)
  {
    var k := JoinKey(s, whom);
    if Staging(k) then s.txs[k.group].timestamp else k.ts
  }

  // ----- the transition system

  predicate Enabled(s: State, act: Action) {
    match act
    case NewPeer(p) => p !in s.peers && p !in s.txs
    case Begin(t, origin) => t !in s.txs && t !in s.peers && origin in s.peers
    case StageSync(t, p, a) => Open(s, t) && p in s.peers && a !in s.used
    case StageLater(t, p, a) => Open(s, t) && p in s.peers && a !in s.used
    case StagePostponed(t) => Open(s, t) && s.txs[t].postponed != [] && s.txs[t].postponed[0].peer in s.peers
    case Join(whom, p, a) => Joinable(s, whom) && p in s.peers && a !in s.used
    case Seal(t) => Open(s, t) && s.txs[t].postponed == [] && s.txs[t].origin in s.peers
    case SyncOne(t) =>
      Sealed(s, t) && s.txs[t].cursor < |s.txs[t].sync| && s.txs[t].sync[s.txs[t].cursor].peer in s.peers
    case Splice(t) => Sealed(s, t) && s.txs[t].cursor == |s.txs[t].sync| && s.txs[t].async != []
    case CommitOne(t) =>
      && Sealed(s, t) && s.txs[t].cursor == |s.txs[t].sync| && s.txs[t].async == []
      && s.txs[t].sync != [] && s.txs[t].sync[0].peer in s.peers
    case CommitUnstaged(p, a) => p in s.peers && a !in s.used
    case Peek(p, a) => p in s.peers && IsFront(s.peers[p].queue, a)
    case Take(p) => p in s.peers && s.peers[p].pending.Some?
    case Receive(p, a) => p in s.peers && IsFront(s.peers[p].queue, a)
    case Discard(p, gone) =>
      && p in s.peers
      && forall a | a in gone :: a in s.peers[p].queue.nodes && !Staging(s.peers[p].queue.nodes[a])
  }

  function SetPeer(s: State, p: nat, peer: Peer): State {
    s.(peers := s.peers[p := peer])
  }

  function SetTx(s: State, t: nat, tx: Tx): State {
    s.(txs := s.txs[t := tx])
  }

  /** Links a fresh node into its queue as a staging entry of `t`, on the sync or the async list. */
  function DoStage(s: State, t: nat, r: Ref, async: bool): State
    requires t in s.txs && r.peer in s.peers
  {
    var tx := s.txs[t];
    var peer := StagePeer(s.peers[r.peer], r.addr, t, if async then tx.asyncTs else tx.timestamp);
    var tx' := if async then PushAsync(tx, r, peer.queue.clock) else PushSync(tx, r, peer.queue.clock);
    SetTx(SetPeer(s, r.peer, peer), t, tx').(used := s.used[r.addr := t])
  }

  function DoJoin(s: State, whom: Ref, p: nat, a: nat): State
    requires Joinable(s, whom) && p in s.peers
  {
    var g := JoinKey(s, whom).group;
    if JoinsAsync(s, whom)
    then DoStage(s, g, Ref(p, a), true)
    else SetPeer(s, p, SyntheticPeer(s.peers[p], a, g, JoinTs(s, whom))).(used := s.used[a := g])
  }

  function DoSeal(s: State, t: nat): State
    requires t in s.txs && s.txs[t].origin in s.peers
  {
    var tx := s.txs[t];
    var o := s.peers[tx.origin];
    var q := Tick(Sync(o.queue, Floor(tx)));
    SetTx(SetPeer(s, tx.origin, o.(queue := q)), t, tx.(timestamp := q.clock, sealed := true))
  }

  function Apply(s: State, act: Action): State
    requires Enabled(s, act)
  {
    match act
    case NewPeer(p) => SetPeer(s, p, EmptyPeer)
    case Begin(t, origin) => SetTx(s, t, Tx(origin, [], [], [], false, 0, 0, 0, {}, false))
    case StageSync(t, p, a) => DoStage(s, t, Ref(p, a), false)
    case StageLater(t, p, a) =>
      SetTx(s, t, s.txs[t].(postponed := [Ref(p, a)] + s.txs[t].postponed)).(used := s.used[a := t])
    case StagePostponed(t) =>
      var s' := SetTx(s, t, s.txs[t].(postponed := s.txs[t].postponed[1..]));
      DoStage(s', t, s.txs[t].postponed[0], false)
    case Join(whom, p, a) => DoJoin(s, whom, p, a)
    case Seal(t) => DoSeal(s, t)
    case SyncOne(t) =>
      var tx := s.txs[t];
      var p := tx.sync[tx.cursor].peer;
      SetTx(SetPeer(s, p, SyncPeer(s.peers[p], tx.timestamp)), t, tx.(cursor := tx.cursor + 1))
    case Splice(t) =>
      var tx := s.txs[t];
      SetTx(s, t, tx.(sync := tx.sync + tx.async, async := []))
    case CommitOne(t) =>
      var tx := s.txs[t];
      var r := tx.sync[0];
      SetTx(SetPeer(s, r.peer, AddNode(s.peers[r.peer], r.addr, t, tx.timestamp)), t,
            tx.(sync := tx.sync[1..], cursor := tx.cursor - 1, committing := true))
    case CommitUnstaged(p, a) => SetPeer(s, p, UnstagedPeer(s.peers[p], a, p)).(used := s.used[a := p])
    case Peek(p, a) => SetPeer(s, p, PeekPeer(s.peers[p], a))
    case Take(p) => SetPeer(s, p, TakePeer(s.peers[p]))
    case Receive(p, a) => SetPeer(s, p, ReceivePeer(s.peers[p], a))
    case Discard(p, gone) => SetPeer(s, p, DiscardPeer(s.peers[p], gone))
  }
}
