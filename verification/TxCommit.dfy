/** The commit operation of a transaction as the program it is, running among all other threads. */
module TxCommit {
  import opened QueueSpec
  import opened Protocol
  import opened ProtocolInv
  import opened ProtocolRuns

  /** Not a step of the thread that owns transaction `t`. */
  predicate Foreign(t: nat, act: Action) {
    match act
    case StageSync(u, _, _) => u != t
    case StageLater(u, _, _) => u != t
    case StagePostponed(u) => u != t
    case Seal(u) => u != t
    case SyncOne(u) => u != t
    case Splice(u) => u != t
    case CommitOne(u) => u != t
    case _ => true
  }

  /** What the thread that owns a transaction does to it, with the node each step is about. */
  datatype Step = Postpones(node: Ref) | Stages(node: Ref) | Seals | Syncs(node: Ref) | Splices | Commits(node: Ref)

  /** What an action means to the thread of transaction `t`; nothing if it is another thread's. */
  ghost function StepOf(s: State, act: Action, t: nat): seq<Step>
    requires Enabled(s, act)
  {
    match act
    case StageSync(u, p, a) => if u == t then [Stages(Ref(p, a))] else []
    case StageLater(u, p, a) => if u == t then [Postpones(Ref(p, a))] else []
    case StagePostponed(u) => if u == t then [Stages(s.txs[t].postponed[0])] else []
    case Seal(u) => if u == t then [Seals] else []
    case SyncOne(u) => if u == t then [Syncs(s.txs[t].sync[s.txs[t].cursor])] else []
    case Splice(u) => if u == t then [Splices] else []
    case CommitOne(u) => if u == t then [Commits(s.txs[t].sync[0])] else []
    case _ => []
  }

  /** All that the thread of transaction `t` did in a run. */
  ghost function LogOf(states: seq<State>, acts: seq<Action>, t: nat): seq<Step>
    requires Run(states, acts)
    decreases |acts|
  {
    if acts == [] then []
    else
      var n := |acts| - 1;
      LogOf(states[..n + 1], acts[..n], t) + StepOf(states[n], acts[n], t)
  }

  lemma LogStep(states: seq<State>, acts: seq<Action>, act: Action, t: nat)
    requires Run(states, acts) && Enabled(states[|acts|], act)
    ensures var states', acts' := states + [Apply(states[|acts|], act)], acts + [act];
            Run(states', acts') && LogOf(states', acts', t) == LogOf(states, acts, t) + StepOf(states[|acts|], act, t)
  {
    var states', acts' := states + [Apply(states[|acts|], act)], acts + [act];
    assert states'[..|acts| + 1] == states && acts'[..|acts|] == acts;
  }

  ghost function StagesAll(nodes: seq<Ref>): seq<Step> {
    if nodes == [] then [] else StagesAll(nodes[..|nodes| - 1]) + [Stages(nodes[|nodes| - 1])]
  }

  ghost function SyncsAll(nodes: seq<Ref>): seq<Step> {
    if nodes == [] then [] else SyncsAll(nodes[..|nodes| - 1]) + [Syncs(nodes[|nodes| - 1])]
  }

  ghost function CommitsAll(nodes: seq<Ref>): seq<Step> {
    if nodes == [] then [] else CommitsAll(nodes[..|nodes| - 1]) + [Commits(nodes[|nodes| - 1])]
  }

  lemma {:induction false} AllAt(nodes: seq<Ref>)
    ensures |StagesAll(nodes)| == |SyncsAll(nodes)| == |CommitsAll(nodes)| == |nodes|
    ensures forall i | 0 <= i < |nodes| ::
              StagesAll(nodes)[i] == Stages(nodes[i]) && SyncsAll(nodes)[i] == Syncs(nodes[i]) && CommitsAll(nodes)[i] == Commits(nodes[i])
  {
    if nodes != [] { AllAt(nodes[..|nodes| - 1]); }
  }

  /** The steps of a sync round over the nodes that were staged first and those that joined. */
  ghost function SyncProgram(first: seq<Ref>, joined: seq<Ref>): seq<Step> {
    SyncsAll(first) + (if joined == [] then [] else [Splices] + SyncsAll(joined))
  }

  /** The steps of a commit. */
  ghost function CommitProgram(postponed: seq<Ref>, first: seq<Ref>, joined: seq<Ref>): seq<Step> {
    StagesAll(postponed) + [Seals] + SyncProgram(first, joined) + CommitsAll(first + joined)
  }

  lemma SyncAt(first: seq<Ref>, joined: seq<Ref>, k: nat)
    requires k < |SyncProgram(first, joined)|
    ensures |SyncProgram(first, joined)| == |first| + (if joined == [] then 0 else 1 + |joined|)
    ensures !SyncProgram(first, joined)[k].Commits?
    ensures SyncProgram(first, joined)[k].Syncs? ==>
              var x := if k < |first| then k else k - 1;
              k != |first| && x < |first + joined| && SyncProgram(first, joined)[k].node == (first + joined)[x]
  {
    AllAt(first);
    AllAt(joined);
  }

  /** The `x`-th node of a commit is synced and committed at one position of the program each. */
  lemma StepAt(postponed: seq<Ref>, first: seq<Ref>, joined: seq<Ref>, i: nat) returns (x: nat)
    requires i < |CommitProgram(postponed, first, joined)|
    requires var step := CommitProgram(postponed, first, joined)[i]; step.Syncs? || step.Commits?
    ensures var step := CommitProgram(postponed, first, joined)[i];
            && x < |first + joined| && step.node == (first + joined)[x]
            && i == |postponed| + 1 + (if step.Commits? then |SyncProgram(first, joined)| + x
                                       else if x < |first| then x else x + 1)
            && (step.Syncs? ==> i <= |postponed| + |SyncProgram(first, joined)|)
  {
    AllAt(postponed);
    AllAt(first + joined);
    var k, n := i - |postponed| - 1, |SyncProgram(first, joined)|;
    if k >= n {
      x := k - n;
    } else {
      assert CommitProgram(postponed, first, joined)[i] == SyncProgram(first, joined)[k];
      SyncAt(first, joined, k);
      x := if k < |first| then k else k - 1;
    }
  }

  /** In a commit everything is synced before anything is committed, and with nodes that are listed once,
      no node is synced or committed twice. */
  lemma SyncsBeforeCommits(postponed: seq<Ref>, first: seq<Ref>, joined: seq<Ref>, i: nat, j: nat)
    requires i < |CommitProgram(postponed, first, joined)| && j < |CommitProgram(postponed, first, joined)|
    requires forall k, l | 0 <= k < l < |first + joined| :: (first + joined)[k] != (first + joined)[l]
    requires var step := CommitProgram(postponed, first, joined)[i]; step.Syncs? || step.Commits?
    requires var step := CommitProgram(postponed, first, joined)[j]; step.Syncs? || step.Commits?
    ensures var steps := CommitProgram(postponed, first, joined);
            && (steps[i].Syncs? && steps[j].Commits? ==> i < j)
            && (steps[i] == steps[j] ==> i == j)
  {
    var x := StepAt(postponed, first, joined, i);
    var y := StepAt(postponed, first, joined, j);
  }

  /** Other threads may join an open transaction; they cannot touch a sealed one. */
  ghost predicate OnlyJoined(tx: Tx, tx': Tx) {
    && tx'.(async := tx.async, asyncTs := tx.asyncTs, members := tx.members) == tx
    && tx.members <= tx'.members
    && (tx.sealed ==> tx' == tx)
  }

  /** The nodes a transaction was given, staged or postponed. */
  ghost function Given(tx: Tx): set<Ref> {
    tx.members + set r | r in tx.postponed
  }

  lemma GivenStays(tx: Tx, tx': Tx)
    requires tx.postponed != [] && tx'.postponed == tx.postponed[1..] && tx.members + {tx.postponed[0]} <= tx'.members
    ensures Given(tx) <= Given(tx')
  {
    assert tx.postponed == [tx.postponed[0]] + tx.postponed[1..];
  }

  /** Where a sync pass stands that began behind `before`: `done` are synced and `rest` are due. */
  ghost predicate PartSynced(tx: Tx, tx': Tx, before: seq<Ref>, done: seq<Ref>, rest: seq<Ref>, log: seq<Step>, log': seq<Step>) {
    && tx' == tx.(cursor := |before| + |done|) && tx.sync == before + (done + rest) && log' == log + SyncsAll(done)
  }

  lemma PartSyncedStep(tx: Tx, tx': Tx, before: seq<Ref>, done: seq<Ref>, rest: seq<Ref>, log: seq<Step>, log': seq<Step>)
    requires PartSynced(tx, tx', before, done, rest, log, log') && tx'.cursor < |tx'.sync|
    ensures rest != [] && tx'.sync[tx'.cursor] == rest[0] && done + rest == done + [rest[0]] + rest[1..]
    ensures PartSynced(tx, tx'.(cursor := tx'.cursor + 1), before, done + [rest[0]], rest[1..], log, log' + [Syncs(rest[0])])
  {
    assert done + rest == done + [rest[0]] + rest[1..];
    assert (done + [rest[0]])[..|done|] == done;
  }

  /** Where the sync round stands between two passes. */
  ghost predicate HalfSynced(tx: Tx, tx': Tx, log: seq<Step>, log': seq<Step>) {
    || (tx' == tx.(cursor := |tx.sync|) && log' == log + SyncsAll(tx.sync))
    || (tx' == tx.(sync := tx.sync + tx.async, async := [], cursor := |tx.sync + tx.async|)
        && log' == log + SyncProgram(tx.sync, tx.async))
  }

  lemma HalfSyncedStep(tx: Tx, tx': Tx, log: seq<Step>, log': seq<Step>)
    requires HalfSynced(tx, tx', log, log') && tx'.async != []
    ensures var all := tx'.sync + tx'.async;
            HalfSynced(tx, tx'.(sync := all, async := [], cursor := |all|), log, log' + [Splices] + SyncsAll(tx'.async))
  {
    assert log' + [Splices] + SyncsAll(tx.async) == log + SyncProgram(tx.sync, tx.async);
  }

  /** Where the commit round stands: the nodes in `done` left the sync list, from its front. */
  ghost predicate PartCommitted(tx: Tx, tx': Tx, done: seq<Ref>, log: seq<Step>, log': seq<Step>) {
    && tx' == tx.(sync := tx'.sync, cursor := |tx'.sync|, committing := tx'.committing)
    && done + tx'.sync == tx.sync && log' == log + CommitsAll(done)
  }

  lemma PartCommittedStep(tx: Tx, tx': Tx, done: seq<Ref>, log: seq<Step>, log': seq<Step>)
    requires PartCommitted(tx, tx', done, log, log') && tx'.sync != []
    ensures var next := tx'.(sync := tx'.sync[1..], cursor := tx'.cursor - 1, committing := true);
            PartCommitted(tx, next, done + [tx'.sync[0]], log, log' + [Commits(tx'.sync[0])])
  {
    assert done + [tx'.sync[0]] + tx'.sync[1..] == done + tx'.sync;
    assert (done + [tx'.sync[0]])[..|done|] == done;
  }

  ghost predicate PartStaged(nodes: seq<Ref>, rest: seq<Ref>, log: seq<Step>, log': seq<Step>) {
    |rest| <= |nodes| && rest == nodes[|nodes| - |rest|..] && log' == log + StagesAll(nodes[..|nodes| - |rest|])
  }

  lemma PartStagedStep(nodes: seq<Ref>, rest: seq<Ref>, log: seq<Step>, log': seq<Step>)
    requires PartStaged(nodes, rest, log, log') && rest != []
    ensures PartStaged(nodes, rest[1..], log, log' + [Stages(rest[0])])
  {
    var n := |nodes| - |rest|;
    assert nodes[..n + 1][..n] == nodes[..n];
  }

  lemma ForeignStep(s: State, act: Action, t: nat)
    requires Enabled(s, act) && Foreign(t, act) && t in s.txs
    ensures t in Apply(s, act).txs && OnlyJoined(s.txs[t], Apply(s, act).txs[t])
  {
  }

  /** The shared state, with the run that led to it. */
  class World {
    var s: State
    ghost var states: seq<State>
    ghost var acts: seq<Action>

    ghost predicate Valid()
      reads this
    {
      Run(states, acts) && s == states[|acts|]
    }

    ghost function Log(t: nat): seq<Step>
      requires Valid()
      reads this
    {
      LogOf(states, acts, t)
    }

    constructor ()
      ensures Valid() && s == Init
    {
      s, states, acts := Init, [Init], [];
    }

    /** One section under a data lock. */
    method Do(act: Action, ghost t: nat)
      requires Valid() && Enabled(s, act)
      modifies this
      ensures Valid() && s == Apply(old(s), act) && AllInv(s)
      ensures acts == old(acts) + [act] && Log(t) == old(Log(t)) + StepOf(old(s), act, t)
    {
      LogStep(states, acts, act, t);
      s := Apply(s, act);
      states, acts := states + [s], acts + [act];
      RunInv(states, acts, |acts|);
    }

    /** Any number of steps of other threads, as they happen while no lock is held. */
    method Interfere(t: nat)
      requires Valid() && t in s.txs
      modifies this
      ensures Valid() && AllInv(s) && t in s.txs && OnlyJoined(old(s).txs[t], s.txs[t])
      ensures old(acts) <= acts && Log(t) == old(Log(t))
    {
      RunInv(states, acts, |acts|);
      var n: nat := *;
      while n > 0
        invariant Valid() && AllInv(s) && t in s.txs && OnlyJoined(old(s).txs[t], s.txs[t])
        invariant old(acts) <= acts && Log(t) == old(Log(t))
      {
        var act: Action := *;
        if Enabled(s, act) && Foreign(t, act) {
          ForeignStep(s, act, t);
          Do(act, t);
        }
        n := n - 1;
      }
    }

    /** Stages the next postponed node, after whatever other threads did before. */
    method StageNext(t: nat)
      requires Valid() && Open(s, t) && s.txs[t].postponed != []
      modifies this
      ensures Valid() && Open(s, t) && old(acts) <= acts
      ensures s.txs[t].postponed == old(s).txs[t].postponed[1..]
      ensures old(s).txs[t].members + {old(s).txs[t].postponed[0]} <= s.txs[t].members
      ensures Log(t) == old(Log(t)) + [Stages(old(s).txs[t].postponed[0])]
    {
      Interfere(t);
      assert TxOk(s, t) && Waiting(s, t, s.txs[t].postponed[0]);
      Do(StagePostponed(t), t);
    }

    /** Stage round: links every postponed node, whose queue could not be locked before. */
    method StageRound(t: nat)
      requires Valid() && Open(s, t)
      modifies this
      ensures Valid() && Open(s, t) && old(acts) <= acts
      ensures s.txs[t].postponed == [] && Log(t) == old(Log(t)) + StagesAll(old(s).txs[t].postponed)
      ensures Given(old(s).txs[t]) <= s.txs[t].members
    {
      ghost var nodes := s.txs[t].postponed;
      while s.txs[t].postponed != []
        invariant Valid() && Open(s, t) && old(acts) <= acts
        invariant PartStaged(nodes, s.txs[t].postponed, old(Log(t)), Log(t))
        invariant Given(old(s).txs[t]) <= Given(s.txs[t])
        decreases |s.txs[t].postponed|
      {
        PartStagedStep(nodes, s.txs[t].postponed, old(Log(t)), Log(t));
        ghost var tx := s.txs[t];
        StageNext(t);
        GivenStays(tx, s.txs[t]);
      }
      assert nodes[..|nodes|] == nodes;
    }

    /** Takes the commit timestamp from the origin's clock and seals the transaction. */
    method AcquireTimestamp(t: nat)
      requires Valid() && Open(s, t) && s.txs[t].postponed == []
      modifies this
      ensures Valid() && Sealed(s, t) && old(acts) <= acts
      ensures s.txs[t].postponed == [] && s.txs[t].cursor == 0 && !s.txs[t].committing
      ensures old(s).txs[t].members <= s.txs[t].members
      ensures forall r | r in s.txs[t].members ::
                RefOk(s, t, r) && s.peers[r.peer].queue.nodes[r.addr].ts < s.txs[t].timestamp
      ensures Log(t) == old(Log(t)) + [Seals]
    {
      Interfere(t);
      assert TxOk(s, t);
      Do(Seal(t), t);
      assert TxOk(s, t);
      forall r | r in s.txs[t].members
        ensures RefOk(s, t, r) && s.peers[r.peer].queue.nodes[r.addr].ts < s.txs[t].timestamp
      {
        assert Listed(s.txs[t], r) && BoundOk(s, t, r);
      }
    }

    /** Syncs the clock of the next destination, after whatever other threads did before. */
    method SyncNext(t: nat)
      requires Valid() && Sealed(s, t) && s.txs[t].cursor < |s.txs[t].sync|
      modifies this
      ensures Valid() && Sealed(s, t) && old(acts) <= acts
      ensures s.txs[t] == old(s).txs[t].(cursor := old(s).txs[t].cursor + 1)
      ensures Log(t) == old(Log(t)) + [Syncs(old(s).txs[t].sync[old(s).txs[t].cursor])]
    {
      Interfere(t);
      assert TxOk(s, t) && Listed(s.txs[t], s.txs[t].sync[s.txs[t].cursor]);
      assert RefOk(s, t, s.txs[t].sync[s.txs[t].cursor]);
      Do(SyncOne(t), t);
    }

    /** Commits the next node, after whatever other threads did before. */
    method CommitNext(t: nat)
      requires Valid() && Sealed(s, t) && s.txs[t].sync != []
      requires s.txs[t].cursor == |s.txs[t].sync| && s.txs[t].async == []
      modifies this
      ensures Valid() && Sealed(s, t) && old(acts) <= acts
      ensures var tx := old(s).txs[t];
              s.txs[t] == tx.(sync := tx.sync[1..], cursor := tx.cursor - 1, committing := true)
      ensures Log(t) == old(Log(t)) + [Commits(old(s).txs[t].sync[0])]
    {
      Interfere(t);
      assert TxOk(s, t) && Listed(s.txs[t], s.txs[t].sync[0]) && RefOk(s, t, s.txs[t].sync[0]);
      Do(CommitOne(t), t);
    }

    /** One pass of the sync round, over the nodes from the cursor on. */
    method SyncPass(t: nat, ghost before: seq<Ref>, ghost nodes: seq<Ref>)
      requires Valid() && Sealed(s, t) && s.txs[t].sync == before + nodes && s.txs[t].cursor == |before|
      modifies this
      ensures Valid() && Sealed(s, t) && old(acts) <= acts
      ensures s.txs[t] == old(s).txs[t].(cursor := |before + nodes|)
      ensures Log(t) == old(Log(t)) + SyncsAll(nodes)
    {
      ghost var tx, log, done, rest := s.txs[t], Log(t), [], nodes;
      while s.txs[t].cursor < |s.txs[t].sync|
        invariant Valid() && Sealed(s, t) && old(acts) <= acts
        invariant PartSynced(tx, s.txs[t], before, done, rest, log, Log(t)) && done + rest == nodes
        decreases |rest|
      {
        PartSyncedStep(tx, s.txs[t], before, done, rest, log, Log(t));
        done, rest := done + [rest[0]], rest[1..];
        SyncNext(t);
      }
      assert done == nodes;
    }

    /** Appends the nodes that joined to the sync list, and syncs them too. */
    method SyncJoined(t: nat)
      requires Valid() && Sealed(s, t) && s.txs[t].cursor == |s.txs[t].sync| && s.txs[t].async != []
      modifies this
      ensures Valid() && Sealed(s, t) && old(acts) <= acts
      ensures var tx := old(s).txs[t];
              s.txs[t] == tx.(sync := tx.sync + tx.async, async := [], cursor := |tx.sync + tx.async|)
      ensures Log(t) == old(Log(t)) + [Splices] + SyncsAll(old(s).txs[t].async)
    {
      ghost var tx := s.txs[t];
      Do(Splice(t), t);
      SyncPass(t, tx.sync, tx.async);
    }

    /** Sync round: fast-forwards the clock of every destination, including those that joined. */
    method SyncRound(t: nat)
      requires Valid() && Sealed(s, t) && s.txs[t].cursor == 0
      modifies this
      ensures Valid() && Sealed(s, t) && old(acts) <= acts
      ensures var tx := old(s).txs[t];
              s.txs[t] == tx.(sync := tx.sync + tx.async, async := [], cursor := |tx.sync + tx.async|)
      ensures Log(t) == old(Log(t)) + SyncProgram(old(s).txs[t].sync, old(s).txs[t].async)
    {
      ghost var tx, log := s.txs[t], Log(t);
      SyncPass(t, [], tx.sync);
      while s.txs[t].async != []
        invariant Valid() && Sealed(s, t) && old(acts) <= acts
        invariant HalfSynced(tx, s.txs[t], log, Log(t)) && s.txs[t].cursor == |s.txs[t].sync|
        decreases |s.txs[t].async|
      {
        HalfSyncedStep(tx, s.txs[t], log, Log(t));
        SyncJoined(t);
      }
      assert tx.async == [] ==> tx.sync + tx.async == tx.sync && SyncProgram(tx.sync, tx.async) == SyncsAll(tx.sync);
    }

    /** Commit round: moves every node to its commit key. */
    method CommitRound(t: nat)
      requires Valid() && Sealed(s, t)
      requires s.txs[t].cursor == |s.txs[t].sync| && s.txs[t].async == []
      modifies this
      ensures Valid() && Sealed(s, t) && old(acts) <= acts
      ensures s.txs[t] == old(s).txs[t].(sync := [], cursor := 0, committing := s.txs[t].committing)
      ensures Log(t) == old(Log(t)) + CommitsAll(old(s).txs[t].sync)
    {
      ghost var tx, log, done := s.txs[t], Log(t), [];
      while s.txs[t].sync != []
        invariant Valid() && Sealed(s, t) && old(acts) <= acts
        invariant PartCommitted(tx, s.txs[t], done, log, Log(t))
        decreases |s.txs[t].sync|
      {
        PartCommittedStep(tx, s.txs[t], done, log, Log(t));
        done := done + [s.txs[t].sync[0]];
        CommitNext(t);
      }
      assert done == tx.sync;
    }

    /** The commit of an open transaction. */
    method CommitOpen(t: nat) returns (ghost first: seq<Ref>, ghost joined: seq<Ref>)
      requires Valid() && Open(s, t)
      modifies this
      ensures Valid() && Sealed(s, t) && old(acts) <= acts
      ensures s.txs[t].sync == [] && s.txs[t].async == [] && s.txs[t].postponed == []
      ensures OnceEach(first + joined, s.txs[t].members) && Given(old(s).txs[t]) <= s.txs[t].members
      ensures Log(t) == old(Log(t)) + CommitProgram(old(s).txs[t].postponed, first, joined)
    {
      ghost var log, postponed := Log(t), s.txs[t].postponed;
      StageRound(t);
      AcquireTimestamp(t);
      first, joined := s.txs[t].sync, s.txs[t].async;
      SyncRound(t);
      RunInv(states, acts, |acts|);
      EveryNodeOnce(s, t);
      CommitRound(t);
      ProgramIs(log, StagesAll(postponed), SyncProgram(first, joined), CommitsAll(first + joined));
    }

    /** The whole commit. It ends, with all lists empty. Its thread stages what was postponed, seals the
        transaction, syncs the queue of every node, those that joined in the meantime last, and only
        then commits every node, all with the one timestamp it returns. `first` and `joined` are the
        nodes of the transaction, once each, and everything it was given before is among them. A transaction that was sealed before is left alone. */
    method Commit(t: nat) returns (ts: nat, ghost first: seq<Ref>, ghost joined: seq<Ref>)
      requires Valid() && t in s.txs
      modifies this
      ensures Valid() && Sealed(s, t) && ts == s.txs[t].timestamp
      ensures old(Sealed(s, t)) ==> s == old(s) && acts == old(acts)
      ensures old(Open(s, t)) ==>
                && AllInv(s) && old(acts) <= acts
                && s.txs[t].sync == [] && s.txs[t].async == [] && s.txs[t].postponed == []
                && OnceEach(first + joined, s.txs[t].members) && Given(old(s).txs[t]) <= s.txs[t].members
                && Log(t) == old(Log(t)) + CommitProgram(old(s).txs[t].postponed, first, joined)
      ensures old(Open(s, t)) ==> forall r | r in s.txs[t].members ::
                MemberOk(s, t, r) && s.peers[r.peer].stamp[r.addr] == Key(ts, t)
    {
      first, joined := [], [];
      if !s.txs[t].sealed {
        first, joined := CommitOpen(t);
        RunInv(states, acts, |acts|);
        AllCommitted(s, t);
      }
      ts := s.txs[t].timestamp;
    }
  }

  lemma ProgramIs(log: seq<Step>, stages: seq<Step>, syncs: seq<Step>, commits: seq<Step>)
    ensures log + stages + [Seals] + syncs + commits == log + (stages + [Seals] + syncs + commits)
  {
  }

  ghost predicate OnceEach(nodes: seq<Ref>, members: set<Ref>) {
    && (forall i, j | 0 <= i < j < |nodes| :: nodes[i] != nodes[j])
    && (forall r :: r in nodes <==> r in members)
  }

  /** After the sync round the list holds every node of the transaction, once. */
  lemma EveryNodeOnce(s: State, t: nat)
    requires AllInv(s) && Sealed(s, t) && s.txs[t].async == [] && !s.txs[t].committing && s.txs[t].postponed == []
    ensures OnceEach(s.txs[t].sync, s.txs[t].members)
  {
    assert TxOk(s, t);
    assert forall r | r in s.txs[t].members :: Listed(s.txs[t], r);
    assert forall r | r in s.txs[t].sync :: Listed(s.txs[t], r);
  }

  /** With the lists empty, every node the transaction staged carries the commit key. */
  lemma AllCommitted(s: State, t: nat)
    requires AllInv(s) && Sealed(s, t) && s.txs[t].sync == [] && s.txs[t].async == []
    ensures forall r | r in s.txs[t].members ::
              MemberOk(s, t, r) && s.peers[r.peer].stamp[r.addr] == Key(s.txs[t].timestamp, t)
  {
    forall r | r in s.txs[t].members
      ensures MemberOk(s, t, r) && s.peers[r.peer].stamp[r.addr] == Key(s.txs[t].timestamp, t)
    {
      assert MemberOk(s, t, r) && StampOk(s, r.peer, r.addr);
      assert !Listed(s.txs[t], r);
    }
  }

  /** A transaction that was given a node while its destination could not be locked. */
  method PostponeOne() returns (w: World)
    ensures fresh(w) && w.Valid() && Open(w.s, 10) && Ref(2, 6) in Given(w.s.txs[10])
  {
    w := new World();
    w.Do(NewPeer(1), 10);
    w.Do(NewPeer(2), 10);
    w.Do(Begin(10, 1), 10);
    w.Do(StageLater(10, 2, 6), 10);
  }

  /** Its commit delivers the node, whatever other threads do. */
  method PostponedIsCommitted() returns (w: World, ts: nat)
    ensures w.Valid() && Sealed(w.s, 10) && w.s.txs[10].timestamp == ts && Ref(2, 6) in w.s.txs[10].members
    ensures 2 in w.s.peers && 6 in w.s.peers[2].stamp && w.s.peers[2].stamp[6] == Key(ts, 10)
  {
    w := PostponeOne();
    ghost var first, joined;
    ts, first, joined := w.Commit(10);
    assert MemberOk(w.s, 10, Ref(2, 6));
  }
}
