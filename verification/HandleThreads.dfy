/** Acquisition and release as the sequences of atomic operations and locked sections they are, among the
    steps of other threads. */
module HandleThreads {
  import opened HandleSpec
  import opened Handles
  import opened HandleRuns

  /** What other threads are known not to do: to take a fast path that adds to the excess, or to do
      anything at all. */
  datatype Company = Any | Locked | Nobody

  /** What a call and the steps of other threads do to the excess. */
  ghost predicate Drift(s: State, s': State, others: Company, more: bool) {
    Excess(s') >= Excess(s) + One(more) && (!others.Any? ==> Excess(s') == Excess(s) + One(more))
  }

  /** Any number of steps of other threads. */
  method Others(node: Node, my: Stake, others: Company)
    requires Good(node) && Owns(node.s, node.held, my)
    modifies node
    ensures Good(node) && Owns(node.s, node.held, my) && Drift(old(node.s), node.s, others, false)
    ensures others.Nobody? ==> node.s == old(node.s)
  {
    var steps: nat := *;
    while steps > 0 && !others.Nobody?
      invariant Good(node) && Owns(node.s, node.held, my) && Drift(old(node.s), node.s, others, false)
      invariant others.Nobody? ==> node.s == old(node.s)
    {
      AnyStep(node, others.Locked?, my);
      steps := steps - 1;
    }
  }

  // ----- the atomic operations of the observed thread

  method MyWeakUp(node: Node, h: nat) returns (ok: bool)
    requires Good(node) && Owns(node.s, node.held, Stake(h, 1, 0, 0))
    modifies node
    ensures Good(node) && Owns(node.s, node.held, Stake(h, 1, One(ok), 0))
    ensures var s := old(node.s);
            && ok == (s.handles[h].weak >= 1)
            && node.s == if ok then WeakTo(s, h, s.handles[h].weak + 1) else s
  {
    ghost var s := node.s;
    ok := node.WeakUp(h);
    if ok {
      WeakToBacked(s, node.held, h, s.handles[h].weak + 1);
      WeakToOwns(s, node.held, h, s.handles[h].weak + 1, Stake(h, 1, 0, 0), 1);
    }
  }

  method MyWeakDown(node: Node, h: nat, refs: nat, weak: nat, strong: nat) returns (ok: bool)
    requires Good(node) && Owns(node.s, node.held, Stake(h, refs, weak, strong)) && weak > strong
    modifies node
    ensures Good(node) && Owns(node.s, node.held, Stake(h, refs, weak - One(ok), strong))
    ensures var s := old(node.s);
            && ok == (s.handles[h].weak >= 2)
            && node.s == if ok then WeakTo(s, h, s.handles[h].weak - 1) else s
  {
    ghost var s := node.s;
    ok := node.WeakDown(h);
    if ok {
      WeakToBacked(s, node.held, h, s.handles[h].weak - 1);
      WeakToOwns(s, node.held, h, s.handles[h].weak - 1, Stake(h, refs, weak, strong), weak - 1);
    }
  }

  method MyStrongUp(node: Node, h: nat, asked: bool) returns (ok: bool)
    requires Good(node) && Owns(node.s, node.held, Stake(h, 1, 1, 0))
    modifies node
    ensures Good(node) && Owns(node.s, node.held, Stake(h, 1, 1, One(ok && asked)))
    ensures var s := old(node.s);
            && ok == (s.strong >= 1)
            && node.s == if ok then StrongTo(s, s.strong + 1, s.strongRefs + One(asked)) else s
  {
    ghost var s, held := node.s, node.held;
    ok := node.StrongUp(asked);
    if ok {
      node.held := node.held[h := node.held[h] + One(asked)];
      StrongToBacked(s, held, node.held, node.s, h);
      StrongToOwns(s, held, node.held, node.s, h, Stake(h, 1, 1, 0), One(asked));
    }
  }

  method MyStrongDown(node: Node, h: nat, refs: nat) returns (ok: bool)
    requires Good(node) && Owns(node.s, node.held, Stake(h, refs, 1, 1))
    modifies node
    ensures Good(node) && Owns(node.s, node.held, Stake(h, refs, 1, One(!ok)))
    ensures var s := old(node.s);
            && ok == (s.strong >= 2) && s.strongRefs > 0
            && node.s == if ok then StrongTo(s, s.strong - 1, s.strongRefs - 1) else s
  {
    ghost var s, held := node.s, node.held;
    HeldIsCounted(s, held, h);
    ok := node.StrongDown();
    if ok {
      node.held := node.held[h := node.held[h] - 1];
      StrongToBacked(s, held, node.held, node.s, h);
      StrongToOwns(s, held, node.held, node.s, h, Stake(h, refs, 1, 1), 0);
    }
  }

  /** The subtractions at the head of a release of many: neither count falls below one. */
  method MyStrongSub(node: Node, h: nat, refs: nat, n: nat)
    requires Good(node) && Owns(node.s, node.held, Stake(h, refs, n, n)) && n > 0
    modifies node
    ensures Good(node) && Owns(node.s, node.held, Stake(h, refs, n, 1)) && node.s.strong >= 1
    ensures old(node.s).strong >= n && old(node.s).strongRefs >= n
    ensures node.s == StrongTo(old(node.s), old(node.s).strong - (n - 1), old(node.s).strongRefs - (n - 1))
  {
    LoweredOwns(node.s, node.held, h, refs, n);
    var held := node.held[h := node.held[h] - (n - 1)];
    ghost var s := StrongTo(node.s, node.s.strong - (n - 1), node.s.strongRefs - (n - 1));
    node.StrongSub(n - 1);
    assert node.s == s;
    node.held := held;
  }

  lemma LoweredOwns(s: State, held: multiset<nat>, h: nat, refs: nat, n: nat)
    requires h in s.handles && h in s.callers && Backed(s, held) && Owns(s, held, Stake(h, refs, n, n)) && n > 0
    ensures held[h] >= n && s.strong >= n && s.strongRefs >= n
    ensures var s', held' := StrongTo(s, s.strong - (n - 1), s.strongRefs - (n - 1)), held[h := held[h] - (n - 1)];
            Backed(s', held') && Owns(s', held', Stake(h, refs, n, 1))
  {
    HeldIsCounted(s, held, h);
    var s', held' := StrongTo(s, s.strong - (n - 1), s.strongRefs - (n - 1)), held[h := held[h] - (n - 1)];
    StrongToBacked(s, held, held', s', h);
    StrongToOwns(s, held, held', s', h, Stake(h, refs, n, n), 1);
  }

  method MyWeakSub(node: Node, h: nat, refs: nat, n: nat, strong: nat)
    requires Good(node) && Owns(node.s, node.held, Stake(h, refs, n, strong)) && n > 0 && strong <= 1
    modifies node
    ensures Good(node) && Owns(node.s, node.held, Stake(h, refs, 1, strong))
    ensures old(node.s).handles[h].weak >= n
    ensures node.s == WeakTo(old(node.s), h, old(node.s).handles[h].weak - (n - 1))
  {
    ghost var s, w := node.s, node.s.handles[h].weak - (n - 1);
    node.WeakSub(h, n - 1);
    assert w >= 1 && node.held[h] <= w;
    WeakToBacked(s, node.held, h, w);
    WeakToOwns(s, node.held, h, w, Stake(h, refs, n, strong), 1);
  }

  // ----- its locked sections

  lemma OwnAcquired(s: State, s': State, held: multiset<nat>, h: nat, r: nat, weak: nat, strong: bool)
    requires Keyed(s) && Keyed(s') && Backed(s, held) && Owns(s, held, Stake(h, 1, weak, 0))
    requires r in s.handles && Acquired(s, s', h, r, strong) && (weak > 0 || h == s.anchor ==> r == h)
    ensures Owns(s', Plus(held, r, strong), Stake(r, 1, 1 + weak, One(strong)))
  {
    HeldIsCounted(s, held, r);
  }

  /** The locked section of an acquisition. */
  method MyAcquire(node: Node, h: nat, weak: nat, strong: bool, active: bool, joins: bool) returns (r: nat, warned: bool)
    requires Good(node) && Owns(node.s, node.held, Stake(h, 1, weak, 0))
    modifies node
    ensures Good(node) && Owns(node.s, node.held, Stake(r, 1, 1 + weak, One(strong))) && (weak > 0 ==> r == h)
    ensures r == Target(old(node.s), h) && r in old(node.s).handles && Acquired(old(node.s), node.s, h, r, strong)
    ensures warned <==> Warns(old(node.s), h)
    ensures Traded(old(node.s), node.s, h, r) && Marked(old(node.s), node.s, h, active, joins)
  {
    ghost var s := node.s;
    r, warned := node.AcquireLocked(h, strong, active, joins);
    AcquiredBacked(s, node.s, node.held, h, r, strong);
    OwnAcquired(s, node.s, node.held, h, r, weak, strong);
    node.held := Plus(node.held, r, strong);
  }

  /** The same with a weak reference already: it gets that very handle. */
  method MyAcquireAgain(node: Node, h: nat, strong: bool, active: bool, joins: bool) returns (r: nat, warned: bool)
    requires Good(node) && Owns(node.s, node.held, Stake(h, 1, 1, 0))
    modifies node
    ensures Good(node) && Owns(node.s, node.held, Stake(h, 1, 2, One(strong))) && r == h && !warned
    ensures h in old(node.s).handles && Acquired(old(node.s), node.s, h, h, strong)
  {
    r, warned := MyAcquire(node, h, 1, strong, active, joins);
  }

  lemma OwnReleased(s: State, s': State, held: multiset<nat>, h: nat, refs: nat, strong: bool)
    requires Keyed(s) && Keyed(s') && Owns(s, held, Stake(h, refs, 1, One(strong))) && Released(s, s', h, 1, strong)
    ensures Owns(s', Minus(held, h, One(strong)), Stake(h, refs, 0, 0))
  {
  }

  /** The locked section of a release. */
  method MyRelease(node: Node, h: nat, refs: nat, strong: bool)
    requires Good(node) && Owns(node.s, node.held, Stake(h, refs, 1, One(strong)))
    modifies node
    ensures Good(node) && Owns(node.s, node.held, Stake(h, refs, 0, 0))
    ensures h in old(node.s).handles && Released(old(node.s), node.s, h, 1, strong)
    ensures strong && !node.s.released && !node.s.destroyed ==> (ReleaseQueued(node.s) <==> node.s.strong == 0)
  {
    ghost var s := node.s;
    HeldIsCounted(s, node.held, h);
    node.ReleaseLocked(h, strong);
    ReleasedBacked(s, node.s, node.held, h, strong);
    OwnReleased(s, node.s, node.held, h, refs, strong);
    node.held := Minus(node.held, h, One(strong));
  }

  // ----- acquisition

  /** Undisturbed, an acquisition takes exactly one weak reference, to the handle that its holder has in
      the map; `up` tells that the strong count goes up. */
  ghost predicate AcquiredAlone(s: State, s': State, h: nat, r: nat, up: bool)
    requires h in s.handles
  {
    && r == Target(s, h) && r in s.handles && r in s'.handles && s'.handles[r].weak == s.handles[r].weak + 1
    && r in s.callers && r in s'.callers && s'.callers[r] == s.callers[r] + One(r != h)
    && s'.released == s.released && s'.strong == s.strong + One(up)
  }

  /** For that handle, nothing but the strong count went up, if `up`. */
  ghost predicate SameButStrong(s: State, s': State, h: nat, up: bool) {
    && h in s.handles && h in s'.handles && s'.handles[h].weak == s.handles[h].weak
    && h in s.callers && h in s'.callers && s'.callers[h] == s.callers[h]
    && s'.released == s.released && s'.strong == s.strong + One(up)
  }

  /** The slow half of an acquisition whose weak reference is taken already: it always gets that very
      handle, and can always give the first weak reference back. */
  method AcquireSlow(node: Node, h: nat, strong: bool, active: bool, joins: bool, others: Company)
    requires Good(node) && Owns(node.s, node.held, Stake(h, 1, 1, 0))
    modifies node
    ensures Good(node) && Owns(node.s, node.held, Stake(h, 1, 1, One(strong))) && Drift(old(node.s), node.s, others, false)
    ensures others.Nobody? ==> SameButStrong(old(node.s), node.s, h, strong)
  {
    Others(node, Stake(h, 1, 1, 0), others);
    var r, warned := MyAcquireAgain(node, h, strong, active, joins);
    assert r == h && !warned;
    Others(node, Stake(h, 1, 2, One(strong)), others);
    var ok := MyWeakDown(node, h, 1, 2, One(strong));
    assert ok;
  }

  /** The rest of an acquisition whose weak reference is taken already. */
  method AcquireAttached(node: Node, h: nat, strong: bool, active: bool, joins: bool, others: Company) returns (fast: bool)
    requires Good(node) && Owns(node.s, node.held, Stake(h, 1, 1, 0))
    modifies node
    ensures Good(node) && Owns(node.s, node.held, Stake(h, 1, 1, One(strong)))
    ensures Drift(old(node.s), node.s, others, fast && !strong)
    ensures others.Nobody? ==>
              && (fast <==> old(node.s).strong > 0)
              && SameButStrong(old(node.s), node.s, h, strong || fast)
  {
    Others(node, Stake(h, 1, 1, 0), others);
    fast := MyStrongUp(node, h, strong);
    if !fast {
      AcquireSlow(node, h, strong, active, joins, others);
    }
  }

  /** The first atomic operation of an acquisition. */
  method TryAttached(node: Node, h: nat, others: Company) returns (ok: bool)
    requires Good(node) && Owns(node.s, node.held, Stake(h, 1, 0, 0))
    modifies node
    ensures Good(node) && Owns(node.s, node.held, Stake(h, 1, One(ok), 0)) && Drift(old(node.s), node.s, others, false)
    ensures others.Nobody? ==>
              && ok == (old(node.s).handles[h].weak > 0) && (!ok ==> node.s == old(node.s))
              && h in node.s.handles && node.s.handles[h].weak == old(node.s).handles[h].weak + One(ok)
              && node.s.callers == old(node.s).callers && node.s.released == old(node.s).released
              && node.s.strong == old(node.s).strong
  {
    Others(node, Stake(h, 1, 0, 0), others);
    ok := MyWeakUp(node, h);
  }

  /** It ends with an object reference and a weak one to the handle it returns, which is the one it was
      given if that was attached, and with the strong one it asked for. The fast path takes a strong
      reference even if none was asked for: the strong count exceeds the strong references by one more
      if and only if that happens. */
  method Acquire(node: Node, h: nat, strong: bool, active: bool, joins: bool, others: Company)
    returns (r: nat, attached: bool, fast: bool, warned: bool)
    requires Good(node) && Owns(node.s, node.held, Stake(h, 1, 0, 0))
    modifies node
    ensures Good(node) && Owns(node.s, node.held, Stake(r, 1, 1, One(strong)))
    ensures Drift(old(node.s), node.s, others, fast && !strong)
    ensures (attached ==> r == h && !warned) && (fast ==> attached)
    ensures others.Nobody? ==>
              && AcquiredAlone(old(node.s), node.s, h, r, strong || fast)
              && (fast <==> old(node.s).handles[h].weak > 0 && old(node.s).strong > 0)
              && (warned <==> Warns(old(node.s), h))
    ensures others.Nobody? && old(node.s).handles[h].weak == 0 ==>
              Traded(old(node.s), node.s, h, r) && Marked(old(node.s), node.s, h, active, joins)
  {
    fast, warned, r := false, false, h;
    attached := TryAttached(node, h, others);
    if attached {
      fast := AcquireAttached(node, h, strong, active, joins, others);
    } else {
      r, warned := AcquireUnattached(node, h, strong, active, joins, others);
    }
  }

  method AcquireUnattached(node: Node, h: nat, strong: bool, active: bool, joins: bool, others: Company)
    returns (r: nat, warned: bool)
    requires Good(node) && Owns(node.s, node.held, Stake(h, 1, 0, 0))
    modifies node
    ensures Good(node) && Owns(node.s, node.held, Stake(r, 1, 1, One(strong))) && Drift(old(node.s), node.s, others, false)
    ensures others.Nobody? ==>
              && AcquiredAlone(old(node.s), node.s, h, r, strong) && (warned <==> Warns(old(node.s), h))
              && Traded(old(node.s), node.s, h, r) && Marked(old(node.s), node.s, h, active, joins)
  {
    Others(node, Stake(h, 1, 0, 0), others);
    r, warned := MyAcquire(node, h, 0, strong, active, joins);
  }

  // ----- release

  lemma WeakThenReleased(s: State, h: nat)
    requires h in s.handles && h in s.callers && s.handles[h].weak >= 2
    ensures Released(s, WeakTo(s, h, s.handles[h].weak - 1), h, 1, false)
  {
  }

  lemma StrongThenReleased(s: State, s': State, h: nat)
    requires h in s.handles && s.strong >= 1 && s.strongRefs >= 1
    requires Released(StrongTo(s, s.strong - 1, s.strongRefs - 1), s', h, 1, false)
    ensures Released(s, s', h, 1, true)
  {
  }

  /** When the last strong reference to a live node goes, its owner is notified exactly if the strong
      count had no excess. */
  ghost predicate NotifiesLast(s: State, s': State) {
    s'.strongRefs == 0 && !s'.released && !s'.destroyed ==> (ReleaseQueued(s') <==> Excess(s) == 0)
  }

  /** Drops a weak reference that is not the last one. */
  method DropInPlace(node: Node, h: nat, refs: nat) returns (ok: bool)
    requires Good(node) && Owns(node.s, node.held, Stake(h, refs, 1, 0))
    modifies node
    ensures Good(node) && Owns(node.s, node.held, Stake(h, refs, One(!ok), 0)) && h in old(node.s).handles
    ensures if ok then Released(old(node.s), node.s, h, 1, false) else node.s == old(node.s)
  {
    ghost var s := node.s;
    ok := MyWeakDown(node, h, refs, 1, 0);
    if ok { WeakThenReleased(s, h); }
  }

  /** The part of a release that drops the weak reference. */
  method ReleaseWeak(node: Node, h: nat, refs: nat, others: Company)
    requires Good(node) && Owns(node.s, node.held, Stake(h, refs, 1, 0))
    modifies node
    ensures Good(node) && Owns(node.s, node.held, Stake(h, refs, 0, 0)) && Drift(old(node.s), node.s, others, false)
    ensures others.Nobody? ==> h in old(node.s).handles && Released(old(node.s), node.s, h, 1, false)
  {
    Others(node, Stake(h, refs, 1, 0), others);
    var ok := DropInPlace(node, h, refs);
    if !ok {
      Others(node, Stake(h, refs, 1, 0), others);
      MyRelease(node, h, refs, false);
    }
  }

  /** It needs only the references it drops, and keeps the object references it may have. */
  method Release(node: Node, h: nat, refs: nat, strong: bool, others: Company)
    requires Good(node) && Owns(node.s, node.held, Stake(h, refs, 1, One(strong)))
    modifies node
    ensures Good(node) && Owns(node.s, node.held, Stake(h, refs, 0, 0)) && Drift(old(node.s), node.s, others, false)
    ensures others.Nobody? ==>
              && h in old(node.s).handles && Released(old(node.s), node.s, h, 1, strong)
              && (strong ==> NotifiesLast(old(node.s), node.s))
  {
    if strong {
      ReleaseStrong(node, h, refs, others);
    } else {
      ReleaseWeak(node, h, refs, others);
    }
  }

  method ReleaseStrong(node: Node, h: nat, refs: nat, others: Company)
    requires Good(node) && Owns(node.s, node.held, Stake(h, refs, 1, 1))
    modifies node
    ensures Good(node) && Owns(node.s, node.held, Stake(h, refs, 0, 0)) && Drift(old(node.s), node.s, others, false)
    ensures others.Nobody? ==>
              && h in old(node.s).handles && Released(old(node.s), node.s, h, 1, true)
              && NotifiesLast(old(node.s), node.s)
  {
    Others(node, Stake(h, refs, 1, 1), others);
    ghost var s := node.s;
    var ok := MyStrongDown(node, h, refs);
    if ok {
      ReleaseWeak(node, h, refs, others);
      if others.Nobody? { StrongThenReleased(s, node.s, h); }
    } else {
      Others(node, Stake(h, refs, 1, 1), others);
      MyRelease(node, h, refs, true);
    }
  }

  /** Releases `n` references: all but one in place, the last one as usual. Neither count falls below one
      in the first part. */
  method ReleaseN(node: Node, h: nat, refs: nat, n: nat, strong: bool, others: Company)
    requires Good(node) && Owns(node.s, node.held, Stake(h, refs, n, if strong then n else 0))
    requires h in node.s.handles
    modifies node
    ensures Good(node) && Owns(node.s, node.held, Stake(h, refs, 0, 0)) && Drift(old(node.s), node.s, others, false)
    ensures others.Nobody? ==>
              && Released(old(node.s), node.s, h, n, strong)
              && (strong && n > 0 ==> NotifiesLast(old(node.s), node.s))
  {
    if n == 0 { return; }
    ghost var s := node.s;
    if n > 1 {
      Lower(node, h, refs, n, strong, others);
    }
    ghost var t := node.s;
    Release(node, h, refs, strong, others);
    if others.Nobody? { LoweredThenReleased(s, t, node.s, h, n, strong); }
  }

  /** The first part of it. */
  method Lower(node: Node, h: nat, refs: nat, n: nat, strong: bool, others: Company)
    requires Good(node) && Owns(node.s, node.held, Stake(h, refs, n, if strong then n else 0)) && n > 1
    modifies node
    ensures Good(node) && Owns(node.s, node.held, Stake(h, refs, 1, One(strong))) && Drift(old(node.s), node.s, others, false)
    ensures others.Nobody? ==> Lowered(old(node.s), node.s, h, n, strong)
  {
    if strong {
      Others(node, Stake(h, refs, n, n), others);
      MyStrongSub(node, h, refs, n);
    }
    Others(node, Stake(h, refs, n, One(strong)), others);
    MyWeakSub(node, h, refs, n, One(strong));
  }

  /** All but one of `n` references went in place. */
  ghost predicate Lowered(s: State, t: State, h: nat, n: nat, strong: bool) {
    && h in s.handles && 0 < n <= s.handles[h].weak && h in t.handles
    && t == s.(handles := t.handles, strong := t.strong, strongRefs := t.strongRefs) && t.handles.Keys == s.handles.Keys
    && t.handles[h].weak == s.handles[h].weak - (n - 1) && (forall x | x in s.handles && x != h :: t.handles[x] == s.handles[x])
    && t.strong == s.strong - (if strong then n - 1 else 0) && t.strongRefs == s.strongRefs - (if strong then n - 1 else 0)
  }

  lemma LoweredThenReleased(s: State, t: State, s': State, h: nat, n: nat, strong: bool)
    requires Lowered(s, t, h, n, strong) && Released(t, s', h, 1, strong)
    ensures Released(s, s', h, n, strong)
  {
    SameWeakCompose(s, t, s', {h});
  }

  // ----- what the excess costs

  /** A live node with its anchor 0 only, with one caller's reference. `weak` weak and `strong` strong
      references are held, and the strong count exceeds those by `excess`. */
  ghost predicate Lone(s: State, held: multiset<nat>, weak: nat, strong: nat, excess: nat) {
    && Inv(s) && Backed(s, held) && s.anchor == 0 && s.handles.Keys == {0} && s.callers[0] == 1
    && s.handles[0].weak == weak && s.strongRefs == strong && Excess(s) == excess && !s.destroyed
    && weak > 0 && !s.released
  }

  lemma LoneOwns(s: State, held: multiset<nat>, weak: nat, strong: nat, excess: nat)
    requires Lone(s, held, weak, strong, excess)
    ensures held == multiset{}[0 := strong]
    ensures forall w: nat, t: nat | t <= w && t <= strong && w - t <= weak - strong :: Owns(s, held, Stake(0, 1, w, t))
  {
    assert forall x | x in held :: x == 0;
    assert held == multiset{}[0 := held[0]];
  }

  method StartLone() returns (node: Node)
    ensures fresh(node) && Lone(node.s, node.held, 1, 0, 0)
  {
    node := new Node(0, 5);
    var r, warned := MyAcquire(node, 0, 0, false, true, false);
  }

  method TakeStrong(node: Node)
    requires Lone(node.s, node.held, 1, 0, 0)
    modifies node
    ensures Lone(node.s, node.held, 2, 1, 0)
  {
    LoneOwns(node.s, node.held, 1, 0, 0);
    var r, warned := MyAcquire(node, 0, 1, true, true, false);
  }

  /** The fast path of a weak acquisition, undisturbed. */
  method TakeFast(node: Node, ghost weak: nat, ghost excess: nat)
    requires Lone(node.s, node.held, weak, 1, excess)
    modifies node
    ensures Lone(node.s, node.held, weak + 1, 1, excess + 1)
  {
    LoneOwns(node.s, node.held, weak, 1, excess);
    var attached := MyWeakUp(node, 0);
    assert Lone(node.s, node.held, weak + 1, 1, excess);
    var fast := MyStrongUp(node, 0, false);
  }

  /** A run in which the strong count exceeds the one strong reference by any given number. */
  method Oversubscribed(n: nat) returns (node: Node)
    ensures fresh(node) && Lone(node.s, node.held, n + 2, 1, n) && node.s.strong == n + 1
  {
    node := StartLone();
    TakeStrong(node);
    for i := 0 to n
      invariant fresh(node) && Lone(node.s, node.held, i + 2, 1, i)
    {
      TakeFast(node, i + 2, i);
    }
  }

  /** Then nobody is notified when that reference goes, unless the number is 0. */
  method MissedNotification(n: nat) returns (node: Node)
    ensures fresh(node) && Lone(node.s, node.held, n + 1, 0, n) && (ReleaseQueued(node.s) <==> n == 0)
  {
    node := Oversubscribed(n);
    LoneOwns(node.s, node.held, n + 2, 1, n);
    Release(node, 0, 1, true, Nobody);
  }

  method DropIfPinned(node: Node, notification: bool)
    requires Good(node) && node.s.handles.Keys == {0} && node.s.callers[0] == 1 && node.s.handles[0].weak == 0
    modifies node
    ensures Good(node) && node.s.handles.Keys == {0} && node.s.callers[0] == 1 && node.s.handles[0].weak == 0
    ensures !Pinned(node.s.handles[0], notification) && node.s.anchor == old(node.s).anchor
    ensures !Pinned(old(node.s).handles[0], !notification) ==> !Pinned(node.s.handles[0], !notification)
    ensures node.s.strong == old(node.s).strong && node.s.strongRefs == old(node.s).strongRefs
  {
    ghost var s := node.s;
    if Pinned(node.s.handles[0], notification) {
      node.DropPin(0, notification);
      SameCountsKeep(s, node.s, node.held, Stake(0, 1, 0, 0));
    }
  }

  method FreeAnchor(node: Node)
    requires Good(node) && node.s.anchor == 0 && node.s.handles.Keys == {0} && node.s.callers[0] == 1
    requires node.s.handles[0].weak == 0
    modifies node
    ensures node.s.handles == map[] && node.s.strong == Excess(old(node.s))
  {
    DropIfPinned(node, true);
    DropIfPinned(node, false);
    assert Counted(node.s, 0);
    AnchorIsUnused(node.s, node.held);
    node.Unref(0);
  }

  /** And when everything else is released, the anchor is freed with a strong count of that number. */
  method FreedWithStrong(n: nat) returns (node: Node)
    ensures node.s.handles == map[] && node.s.strong == n
  {
    node := MissedNotification(n);
    LoneOwns(node.s, node.held, n + 1, 0, n);
    ReleaseN(node, 0, 1, n + 1, false, Nobody);
    FreeAnchor(node);
  }
}
