/** From handing a node to a transaction to its delivery, over every run of the protocol. */
module Sending {
  import opened QueueSpec
  import opened Protocol
  import opened ProtocolInv
  import opened ProtocolRuns
  import opened Ordering

  /** The action gives node `r` to transaction `t`: it stages it, postpones it, or joins in time. */
  ghost predicate Gives(s: State, act: Action, t: nat, r: Ref) {
    match act
    case StageSync(u, p, a) => u == t && r == Ref(p, a)
    case StageLater(u, p, a) => u == t && r == Ref(p, a)
    case Join(whom, p, a) => Joinable(s, whom) && JoinsAsync(s, whom) && JoinKey(s, whom).group == t && r == Ref(p, a)
    case _ => false
  }

  ghost predicate Has(s: State, t: nat, r: Ref) {
    t in s.txs && (r in s.txs[t].members || r in s.txs[t].postponed)
  }

  /** No action takes a node from a transaction, and only these give it one. */
  lemma StepGives(s: State, act: Action, t: nat, r: Ref)
    requires Enabled(s, act)
    ensures Has(Apply(s, act), t, r) <==> Has(s, t, r) || Gives(s, act, t, r)
  {
    if act == StagePostponed(t) {
      assert s.txs[t].postponed == [s.txs[t].postponed[0]] + s.txs[t].postponed[1..];
    }
  }

  lemma {:induction false} RunGives(states: seq<State>, acts: seq<Action>, k: nat, t: nat, r: Ref)
    requires Run(states, acts) && k <= |acts|
    ensures Has(states[k], t, r) <==> exists i :: 0 <= i < k && Gives(states[i], acts[i], t, r)
  {
    if k > 0 {
      RunGives(states, acts, k - 1, t, r);
      StepGives(states[k - 1], acts[k - 1], t, r);
    }
  }

  /** Once a transaction is sealed, its members are exactly the nodes it was given. */
  lemma SealedMembers(states: seq<State>, acts: seq<Action>, k: nat, t: nat, r: Ref)
    requires Run(states, acts) && k <= |acts| && Sealed(states[k], t)
    ensures r in states[k].txs[t].members <==> exists i :: 0 <= i < k && Gives(states[i], acts[i], t, r)
  {
    RunInv(states, acts, k);
    assert TxOk(states[k], t);
    RunGives(states, acts, k, t, r);
  }

  /** What a transaction was given arrives, under its one commit key, once the transaction is committed. */
  lemma GivenArrives(states: seq<State>, acts: seq<Action>, i: nat, k: nat, t: nat, r: Ref)
    requires Run(states, acts) && i < k <= |acts| && Gives(states[i], acts[i], t, r) && Sealed(states[k], t)
    requires states[k].txs[t].sync == [] && states[k].txs[t].async == []
    ensures Arrived(states[k], r, Key(states[k].txs[t].timestamp, t))
  {
    SealedMembers(states, acts, k, t, r);
    DeliveredExactlyOnce(states, acts, k, t, r);
  }

  /** A unicast arrives at once, under a timestamp above everything its peer has seen. */
  lemma UnicastArrives(states: seq<State>, acts: seq<Action>, i: nat, k: nat, p: nat, a: nat)
    requires Run(states, acts) && i < k <= |acts| && acts[i] == CommitUnstaged(p, a)
    ensures Arrived(states[k], Ref(p, a), Key(states[i].peers[p].queue.clock + 2, p))
  {
    RunInv(states, acts, i);
    RunInv(states, acts, k);
    RunLater(states, acts, i + 1, k);
    var s, s' := states[i], states[k];
    assert PeerOk(s.peers[p]);
    FreshIsUnstamped(s, p, a);
    UnstagedKeeps(s.peers[p], a, p);
    assert PeerLater(states[i + 1].peers[p], s'.peers[p]);
    StampArrives(s', p, a);
  }

  // ----- the order of one sender

  /** The clock of a sealed transaction's origin has reached its timestamp. */
  lemma {:induction false} OriginIsSynced(states: seq<State>, acts: seq<Action>, k: nat, t: nat)
    requires Run(states, acts) && k <= |acts| && Sealed(states[k], t)
    ensures SyncedTo(states[k], states[k].txs[t].origin, states[k].txs[t].timestamp)
  {
    if k > 0 {
      var s, s' := states[k - 1], states[k];
      RunInv(states, acts, k - 1);
      StepLater(s, acts[k - 1]);
      if Sealed(s, t) {
        OriginIsSynced(states, acts, k - 1, t);
        assert TxLater(s.txs[t], s'.txs[t]) && PeerLater(s.peers[s.txs[t].origin], s'.peers[s.txs[t].origin]);
      } else {
        OriginStep(s, acts[k - 1], t);
      }
    }
  }

  lemma OriginStep(s: State, act: Action, t: nat)
    requires Enabled(s, act) && !Sealed(s, t) && Sealed(Apply(s, act), t)
    ensures act == Seal(t) && SyncedTo(Apply(s, act), Apply(s, act).txs[t].origin, Apply(s, act).txs[t].timestamp)
  {
  }

  /** Transactions of one sender are delivered, everywhere, in the order in which they were sealed. */
  lemma SenderOrder(states: seq<State>, acts: seq<Action>, i: nat, k: nat, t1: nat, t2: nat, p: nat, m1: nat, m2: nat)
    requires Run(states, acts) && i <= k <= |acts| && Sealed(states[i], t1) && !Sealed(states[i], t2) && Sealed(states[k], t2)
    requires states[i].txs[t1].origin == states[k].txs[t2].origin
    ensures Sealed(states[k], t1) && states[k].txs[t1].timestamp < states[k].txs[t2].timestamp
    ensures Delivered(states[k], p, m1, t1) && Delivered(states[k], p, m2, t2) ==> m1 < m2
  {
    var s, s' := states[i], states[k];
    OriginIsSynced(states, acts, i, t1);
    RunLater(states, acts, i, k);
    assert TxLater(s.txs[t1], s'.txs[t1]) && SealedSince(s, s', t2);
    if Delivered(s', p, m1, t1) && Delivered(s', p, m2, t2) {
      RunInv(states, acts, k);
      DeliveredKey(s', p, m1, t1);
      DeliveredKey(s', p, m2, t2);
      assert PeerOk(s'.peers[p]);
    }
  }

  // ----- receiving

  /** What is peeked, and not removed yet, was the front when it was peeked, and the flag was right then. */
  ghost predicate WasPeeked(states: seq<State>, acts: seq<Action>, i: nat, p: nat, e: Item)
    requires Run(states, acts) && i < |acts|
  {
    && acts[i] == Peek(p, e.addr) && e.key == states[i].peers[p].queue.nodes[e.addr]
    && (e.more <==> More(states[i].peers[p].queue, e.addr))
  }

  lemma {:induction false} PendingWasPeeked(states: seq<State>, acts: seq<Action>, k: nat, p: nat)
    requires Run(states, acts) && k <= |acts| && p in states[k].peers && states[k].peers[p].pending.Some?
    ensures exists i :: 0 <= i < k && WasPeeked(states, acts, i, p, states[k].peers[p].pending.value)
  {
    if k > 0 {
      var s, act := states[k - 1], acts[k - 1];
      var e := states[k].peers[p].pending.value;
      if act.Peek? && act.p == p {
        assert WasPeeked(states, acts, k - 1, p, e);
      } else {
        PendingStep(s, act, p);
        PendingWasPeeked(states, acts, k - 1, p);
      }
    }
  }

  lemma PendingStep(s: State, act: Action, p: nat)
    requires Enabled(s, act) && p in Apply(s, act).peers && Apply(s, act).peers[p].pending.Some?
    requires !(act.Peek? && act.p == p)
    ensures p in s.peers && s.peers[p].pending == Apply(s, act).peers[p].pending
  {
  }
}
