/** What callers can do to a node, step by step and interleaved. */
module HandleRuns {
  import opened HandleSpec
  import opened Handles

  // ----- who holds what

  /** Every strong reference is held through a handle, with a weak reference to that handle. */
  ghost predicate Backed(s: State, held: multiset<nat>) {
    |held| == s.strongRefs && forall x | x in held :: x in s.handles && held[x] <= s.handles[x].weak
  }

  ghost predicate Good(node: Node)
    reads node
  {
    Inv(node.s) && Backed(node.s, node.held)
  }

  /** The references one thread has to a handle, `strong` of its weak ones with a strong one. */
  datatype Stake = Stake(handle: nat, refs: nat, weak: nat, strong: nat)

  const NoStake := Stake(0, 0, 0, 0)

  /** The node is released, or its anchor attached. */
  predicate Attached(s: State) {
    s.released || (s.anchor in s.handles && s.handles[s.anchor].weak > 0)
  }

  // How many references belong to other threads: object references, strong references, and weak ones
  // without a strong one.

  function OtherRefs(s: State, h: nat, my: Stake): int
    requires h in s.callers
  {
    s.callers[h] - (if h == my.handle then my.refs else 0)
  }

  function OtherStrong(held: multiset<nat>, h: nat, my: Stake): int {
    held[h] - (if h == my.handle then my.strong else 0)
  }

  function OtherWeak(s: State, held: multiset<nat>, h: nat, my: Stake): int
    requires h in s.handles
  {
    s.handles[h].weak - held[h] - (if h == my.handle then my.weak - my.strong else 0)
  }

  /** The thread's references are there, and so is the handle; a remote can be attached. */
  ghost predicate Owns(s: State, held: multiset<nat>, my: Stake) {
    && (Attached(s) || my.handle == s.anchor) && s.strongRefs <= s.strong && my.strong <= my.weak
    && (my.refs + my.weak > 0 ==>
          && my.handle in s.handles && my.handle in s.callers
          && OtherRefs(s, my.handle, my) >= 0 && OtherStrong(held, my.handle, my) >= 0 && OtherWeak(s, held, my.handle, my) >= 0)
  }

  /** What one step of some thread keeps. A released node stays released; the strong count stays as exact
      as it was if only locked acquisitions are done, and never falls short; and another thread keeps
      what it has. */
  ghost predicate Stepped(s: State, held: multiset<nat>, s': State, held': multiset<nat>, locked: bool, my: Stake) {
    && Inv(s') && Backed(s', held') && s'.anchor == s.anchor && (s.released ==> s'.released)
    && Excess(s') >= Excess(s) && (locked ==> Excess(s') == Excess(s))
    && (Owns(s, held, my) ==> Owns(s', held', my))
  }

  // ----- single steps

  predicate Keyed(s: State) {
    s.callers.Keys == s.handles.Keys && (s.handles == map[] || s.anchor in s.handles)
  }

  /** A step that changes neither weak nor strong counts, nor takes a reference of `my`. */
  lemma SameCountsKeep(s: State, s': State, held: multiset<nat>, my: Stake)
    requires Keyed(s) && Keyed(s') && Backed(s, held) && SameWeak(s, s', {})
    requires s'.anchor == s.anchor && s'.released == s.released && s'.strong == s.strong && s'.strongRefs == s.strongRefs
    requires var h := my.handle;
             h in s.callers && s.callers[h] >= my.refs > 0 ==> h in s'.callers && s'.callers[h] >= my.refs
    ensures Backed(s', held) && (Owns(s, held, my) ==> Owns(s', held, my))
  {
  }

  method RefStep(node: Node, h: nat, locked: bool, my: Stake)
    requires Good(node) && h in node.s.handles
    modifies node
    ensures Stepped(old(node.s), old(node.held), node.s, node.held, locked, my)
  {
    ghost var s := node.s;
    node.Ref(h);
    SameCountsKeep(s, node.s, node.held, my);
  }

  method UnrefStep(node: Node, h: nat, locked: bool, my: Stake)
    requires Good(node) && h in node.s.handles && OtherRefs(node.s, h, my) > 0
    modifies node
    ensures Stepped(old(node.s), old(node.held), node.s, node.held, locked, my)
  {
    ghost var s := node.s;
    node.Unref(h);
    OnlyRefsSameWeak(s, node.s, {});
    SameCountsKeep(s, node.s, node.held, my);
  }

  method ExportStep(node: Node, h: nat, locked: bool, my: Stake)
    requires Good(node) && h in node.s.handles
    modifies node
    ensures Stepped(old(node.s), old(node.held), node.s, node.held, locked, my)
  {
    ghost var s := node.s;
    node.Export(h);
    SameCountsKeep(s, node.s, node.held, my);
  }

  method DropPinStep(node: Node, h: nat, locked: bool, my: Stake)
    requires Good(node) && h in node.s.handles
    modifies node
    ensures Stepped(old(node.s), old(node.held), node.s, node.held, locked, my)
  {
    ghost var s := node.s;
    var notification: bool := *;
    if Pinned(node.s.handles[h], notification) {
      node.DropPin(h, notification);
      SameCountsKeep(s, node.s, node.held, my);
    }
  }

  method DestroyStep(node: Node, locked: bool, my: Stake)
    requires Good(node)
    modifies node
    ensures Stepped(old(node.s), old(node.held), node.s, node.held, locked, my)
  {
    ghost var s := node.s;
    var peers: set<nat> := *;
    if node.s.destroyed || AnchorHeld(node.s) {
      var staged := node.DestroyLocked(peers);
      SameCountsKeep(s, node.s, node.held, my);
    }
  }

  /** The ledger after a strong reference was taken through `h`. */
  function Plus(held: multiset<nat>, h: nat, strong: bool): multiset<nat> {
    if strong then held + multiset{h} else held
  }

  /** And after `n` were dropped. */
  function Minus(held: multiset<nat>, h: nat, n: nat): multiset<nat> {
    held[h := if held[h] >= n then held[h] - n else 0]
  }

  lemma MinusSize(held: multiset<nat>, h: nat, n: nat)
    requires n <= held[h]
    ensures |Minus(held, h, n)| == |held| - n
  {
  }

  lemma AcquiredBacked(s: State, s': State, held: multiset<nat>, h: nat, r: nat, strong: bool)
    requires Backed(s, held) && h in s.handles && r in s.handles && r in s.callers && Acquired(s, s', h, r, strong)
    requires r != h ==> s.handles[h].weak == 0
    ensures Backed(s', Plus(held, r, strong))
  {
    var held' := Plus(held, r, strong);
    forall x | x in held' ensures x in s'.handles && held'[x] <= s'.handles[x].weak {
      if x != r { assert x in held && x != h; }
    }
  }

  lemma AcquiredKeeps(s: State, s': State, held: multiset<nat>, h: nat, r: nat, strong: bool, my: Stake)
    requires Keyed(s) && Keyed(s') && h in s.handles && OtherRefs(s, h, my) > 0
    requires r in s.handles && Acquired(s, s', h, r, strong) && (r != h ==> s.handles[h].weak == 0)
    requires h == s.anchor ==> r == h
    requires Backed(s, held) && Owns(s, held, my)
    ensures Owns(s', Plus(held, r, strong), my)
  {
    var x := my.handle;
    if my.refs + my.weak > 0 {
      assert my.weak > 0 && x != r && x != h ==> x in s'.handles;
    }
  }

  method AcquireStep(node: Node, h: nat, locked: bool, my: Stake)
    requires Good(node) && h in node.s.handles && OtherRefs(node.s, h, my) > 0
    requires Attached(node.s) || h == node.s.anchor
    modifies node
    ensures Stepped(old(node.s), old(node.held), node.s, node.held, locked, my)
  {
    var strong: bool, active: bool, joins: bool := *, *, *;
    ghost var s := node.s;
    var r, warned := node.AcquireLocked(h, strong, active, joins);
    AcquiredBacked(s, node.s, node.held, h, r, strong);
    if Owns(s, node.held, my) { AcquiredKeeps(s, node.s, node.held, h, r, strong, my); }
    node.held := Plus(node.held, r, strong);
  }

  lemma ReleasedBacked(s: State, s': State, held: multiset<nat>, h: nat, strong: bool)
    requires Backed(s, held) && h in s.handles && Released(s, s', h, 1, strong)
    requires if strong then held[h] > 0 else s.handles[h].weak > held[h]
    ensures Backed(s', Minus(held, h, One(strong)))
  {
    var held' := Minus(held, h, One(strong));
    MinusSize(held, h, One(strong));
    forall x | x in held' ensures x in s'.handles && held'[x] <= s'.handles[x].weak {
      assert x in held;
    }
  }

  lemma ReleasedKeeps(s: State, s': State, held: multiset<nat>, h: nat, strong: bool, my: Stake)
    requires Keyed(s) && Keyed(s') && h in s.handles && Released(s, s', h, 1, strong)
    requires if strong then OtherStrong(held, h, my) > 0 else OtherWeak(s, held, h, my) > 0
    requires Owns(s, held, my)
    ensures Owns(s', Minus(held, h, One(strong)), my)
  {
    var x := my.handle;
    if my.refs + my.weak > 0 {
      assert my.weak > 0 ==> x in s'.handles;
    }
  }

  method ReleaseStep(node: Node, h: nat, locked: bool, my: Stake)
    requires Good(node) && h in node.s.handles
    modifies node
    ensures Stepped(old(node.s), old(node.held), node.s, node.held, locked, my)
  {
    var strong: bool := *;
    ghost var s := node.s;
    if strong && (OtherStrong(node.held, h, my) <= 0 || node.held[h] == 0 || node.s.strong == 0) { return; }
    if !strong && (OtherWeak(node.s, node.held, h, my) <= 0 || node.s.handles[h].weak <= node.held[h]) { return; }
    node.ReleaseLocked(h, strong);
    ReleasedBacked(s, node.s, node.held, h, strong);
    if Owns(s, node.held, my) { ReleasedKeeps(s, node.s, node.held, h, strong, my); }
    node.held := Minus(node.held, h, One(strong));
  }

  /** The weak count of a handle moves between positive values; the thread's own part may move with it. */
  lemma WeakToOwns(s: State, held: multiset<nat>, h: nat, w: nat, my: Stake, weak: nat)
    requires h in s.handles && h in s.callers && w > 0 && Owns(s, held, my) && my.strong <= weak
    requires weak != my.weak ==> h == my.handle && my.refs + my.weak > 0
    requires h == my.handle ==> w - held[h] >= weak - my.strong
    ensures Owns(WeakTo(s, h, w), held, my.(weak := weak))
  {
  }

  lemma WeakToBacked(s: State, held: multiset<nat>, h: nat, w: nat)
    requires h in s.handles && Backed(s, held) && held[h] <= w
    ensures Backed(WeakTo(s, h, w), held)
  {
  }

  lemma WeakMoved(s: State, held: multiset<nat>, h: nat, w: nat, locked: bool, my: Stake)
    requires h in s.handles && h in s.callers && Backed(s, held) && 0 < w && held[h] <= w && Inv(WeakTo(s, h, w))
    requires OtherWeak(s, held, h, my) + w - s.handles[h].weak >= 0 || w >= s.handles[h].weak
    ensures Stepped(s, held, WeakTo(s, h, w), held, locked, my)
  {
    WeakToBacked(s, held, h, w);
    if Owns(s, held, my) {
      assert h == my.handle && my.refs + my.weak == 0 ==> w - held[h] >= 0;
      WeakToOwns(s, held, h, w, my, my.weak);
    }
  }

  // Atomic operations on the weak count.

  method WeakUpStep(node: Node, h: nat, locked: bool, my: Stake)
    requires Good(node) && h in node.s.handles
    modifies node
    ensures Stepped(old(node.s), old(node.held), node.s, node.held, locked, my)
  {
    ghost var s := node.s;
    var ok := node.WeakUp(h);
    if ok { WeakMoved(s, node.held, h, s.handles[h].weak + 1, locked, my); }
  }

  method WeakDownStep(node: Node, h: nat, locked: bool, my: Stake)
    requires Good(node) && h in node.s.handles && node.s.handles[h].weak > node.held[h]
    requires OtherWeak(node.s, node.held, h, my) > 0
    modifies node
    ensures Stepped(old(node.s), old(node.held), node.s, node.held, locked, my)
  {
    ghost var s := node.s;
    var ok := node.WeakDown(h);
    if ok { WeakMoved(s, node.held, h, s.handles[h].weak - 1, locked, my); }
  }

  method WeakSubStep(node: Node, h: nat, k: nat, locked: bool, my: Stake)
    requires Good(node) && h in node.s.handles
    modifies node
    ensures Stepped(old(node.s), old(node.held), node.s, node.held, locked, my)
  {
    ghost var s := node.s;
    var weak := node.s.handles[h].weak;
    if weak > k && weak >= node.held[h] + k && OtherWeak(node.s, node.held, h, my) >= k {
      node.WeakSub(h, k);
      WeakMoved(s, node.held, h, weak - k, locked, my);
    }
  }

  /** The strong count moves between positive values, with the strong references held through `h`. */
  lemma StrongToOwns(s: State, held: multiset<nat>, held': multiset<nat>, s': State, h: nat, my: Stake, strong: nat)
    requires h in s.handles && h in s.callers && s' == StrongTo(s, s'.strong, s'.strongRefs) && Owns(s, held, my)
    requires strong <= my.weak && held' == held[h := held'[h]] && Excess(s') >= 0
    requires strong != my.strong ==> h == my.handle && my.refs + my.weak > 0
    requires h == my.handle && my.refs + my.weak > 0 ==> strong <= held'[h] && s.handles[h].weak - held'[h] >= my.weak - strong
    ensures Owns(s', held', my.(strong := strong))
  {
  }

  lemma StrongToBacked(s: State, held: multiset<nat>, held': multiset<nat>, s': State, h: nat)
    requires h in s.handles && Backed(s, held) && s' == StrongTo(s, s'.strong, s'.strongRefs)
    requires held' == held[h := held'[h]] && held'[h] <= s.handles[h].weak && s'.strongRefs == s.strongRefs + held'[h] - held[h]
    ensures Backed(s', held')
  {
    assert |held'| == |held| + held'[h] - held[h];
    forall x | x in held' ensures x in s'.handles && held'[x] <= s'.handles[x].weak {
      assert x == h || held'[x] == held[x];
    }
  }

  lemma StrongMoved(s: State, held: multiset<nat>, s': State, h: nat, n: nat, locked: bool, my: Stake)
    requires h in s.handles && h in s.callers && Backed(s, held) && s' == StrongTo(s, s'.strong, s'.strongRefs) && Inv(s')
    requires n <= s.handles[h].weak && s'.strongRefs == s.strongRefs + n - held[h]
    requires Excess(s') >= Excess(s) && (locked ==> Excess(s') == Excess(s))
    requires OtherStrong(held, h, my) + n - held[h] >= 0 || n >= held[h]
    requires OtherWeak(s, held, h, my) >= n - held[h] || n <= held[h]
    ensures Stepped(s, held, s', held[h := n], locked, my)
  {
    StrongToBacked(s, held, held[h := n], s', h);
    if Owns(s, held, my) { StrongToOwns(s, held, held[h := n], s', h, my, my.strong); }
  }

  // Atomic operations on the strong count, by a thread that has references through `h`.

  method StrongUpStep(node: Node, h: nat, locked: bool, my: Stake)
    requires Good(node) && h in node.s.handles
    modifies node
    ensures Stepped(old(node.s), old(node.held), node.s, node.held, locked, my)
  {
    var asked: bool := *;
    ghost var s, held := node.s, node.held;
    if if asked then node.s.handles[h].weak > node.held[h] && OtherWeak(node.s, node.held, h, my) > 0 else !locked {
      var ok := node.StrongUp(asked);
      if ok {
        StrongMoved(s, held, node.s, h, held[h] + One(asked), locked, my);
        node.held := node.held[h := node.held[h] + One(asked)];
      }
    }
  }

  method StrongDownStep(node: Node, h: nat, locked: bool, my: Stake)
    requires Good(node) && h in node.s.handles && node.held[h] > 0 && OtherStrong(node.held, h, my) > 0
    modifies node
    ensures Stepped(old(node.s), old(node.held), node.s, node.held, locked, my)
  {
    ghost var s, held := node.s, node.held;
    HeldIsCounted(node.s, node.held, h);
    var ok := node.StrongDown();
    if ok {
      StrongMoved(s, held, node.s, h, held[h] - 1, locked, my);
      node.held := node.held[h := node.held[h] - 1];
    }
  }

  method StrongSubStep(node: Node, h: nat, k: nat, locked: bool, my: Stake)
    requires Good(node) && h in node.s.handles
    modifies node
    ensures Stepped(old(node.s), old(node.held), node.s, node.held, locked, my)
  {
    ghost var s, held := node.s, node.held;
    HeldIsCounted(node.s, node.held, h);
    if OtherStrong(node.held, h, my) >= k && node.held[h] >= k && node.s.strong > k {
      var n: nat := node.held[h] - k;
      node.StrongSub(k);
      StrongMoved(s, held, node.s, h, n, locked, my);
      node.held := node.held[h := n];
    }
  }

  lemma HeldIsCounted(s: State, held: multiset<nat>, h: nat)
    requires Backed(s, held)
    ensures held[h] <= s.strongRefs && (h in s.handles ==> held[h] <= s.handles[h].weak)
  {
    assert held == held[h := 0] + multiset{}[h := held[h]];
  }

  method AddRemoteStep(node: Node, h: nat, locked: bool, my: Stake)
    requires Good(node) && h !in node.s.handles && node.s.anchor in node.s.handles
    modifies node
    ensures Stepped(old(node.s), old(node.held), node.s, node.held, locked, my)
  {
    var p: nat := *;
    ghost var s := node.s;
    node.AddRemote(h, p);
    AddedKeeps(s, node.s, node.held, h, my);
  }

  lemma AddedKeeps(s: State, s': State, held: multiset<nat>, h: nat, my: Stake)
    requires Backed(s, held) && h !in s.handles && s' == s.(handles := s'.handles, callers := s.callers[h := 1])
    requires Keyed(s) && Keyed(s') && forall x | x in s.handles :: x in s'.handles && s'.handles[x].weak == s.handles[x].weak
    ensures Backed(s', held) && (Owns(s, held, my) ==> Owns(s', held, my))
  {
  }

  /** One step of any thread on any handle that exists, or the creation of a remote handle. A thread only
      drops references it has, so not those of `my`. */
  method AnyStep(node: Node, locked: bool, my: Stake)
    requires Good(node)
    modifies node
    ensures Stepped(old(node.s), old(node.held), node.s, node.held, locked, my)
  {
    var h: nat, k: nat := *, *;
    if node.s.anchor !in node.s.handles { return; }
    if h !in node.s.handles {
      AddRemoteStep(node, h, locked, my);
      return;
    }
    var weak, strong := OtherWeak(node.s, node.held, h, my), OtherStrong(node.held, h, my);
    if
    case OtherRefs(node.s, h, my) > 0 && (Attached(node.s) || h == node.s.anchor) => AcquireStep(node, h, locked, my);
    case true => ReleaseStep(node, h, locked, my);
    case true => WeakUpStep(node, h, locked, my);
    case weak > 0 && node.s.handles[h].weak > node.held[h] => WeakDownStep(node, h, locked, my);
    case true => WeakSubStep(node, h, k, locked, my);
    case true => StrongUpStep(node, h, locked, my);
    case strong > 0 && node.held[h] > 0 => StrongDownStep(node, h, locked, my);
    case true => StrongSubStep(node, h, k, locked, my);
    case true => DropPinStep(node, h, locked, my);
    case true => ExportStep(node, h, locked, my);
    case true => DestroyStep(node, locked, my);
    case true => RefStep(node, h, locked, my);
    case OtherRefs(node.s, h, my) > 0 => UnrefStep(node, h, locked, my);
  }

  // ----- whole runs

  /** Whatever callers do, references stay conserved, the map stays exact, a released node stays
      released, a release notification is queued only when nobody holds a strong reference, and every
      strong reference has a weak one. With locked acquisitions only, the strong count is exact as
      well. When the anchor is gone, so are all strong references. */
  method AnyRun(anchor: nat, owner: nat, steps: nat, locked: bool) returns (node: Node)
    ensures Conserved(node.s) && Mapped(node.s) && Notified(node.s) && Backed(node.s, node.held) && Excess(node.s) >= 0
    ensures locked ==> Excess(node.s) == 0
    ensures node.s.anchor !in node.s.handles ==> node.s.handles == map[] && node.s.strong == Excess(node.s)
  {
    node := new Node(anchor, owner);
    for i := 0 to steps
      invariant fresh(node) && Good(node) && Excess(node.s) >= 0
      invariant locked ==> Excess(node.s) == 0
    {
      AnyStep(node, locked, NoStake);
    }
    if node.s.anchor !in node.s.handles { NothingHeld(node.s, node.held); }
  }

  lemma NothingHeld(s: State, held: multiset<nat>)
    requires Backed(s, held) && forall x | x in s.handles :: s.handles[x].weak == 0
    ensures s.strongRefs == 0
  {
    assert forall x :: x !in held;
    assert held == multiset{};
  }

  /** An anchor freed by its last reference has no weak and no strong references, so what is left of the
      strong count is the excess. */
  lemma AnchorIsUnused(s: State, held: multiset<nat>)
    requires Inv(s) && Backed(s, held) && s.anchor in s.handles && s.callers[s.anchor] > 0 && s.handles[s.anchor].ref == 1
    ensures Put(s, s.anchor).handles == map[] && s.links == map[] && s.handles[s.anchor].weak == 0
    ensures s.strongRefs == 0 && Put(s, s.anchor).strong == Excess(s)
  {
    LastReference(s, s.anchor);
    NothingHeld(s, held);
  }

  /** A node whose one remote, held by peer 7, has `n` weak references. */
  ghost predicate OneRemote(s: State, n: nat) {
    && Inv(s) && s.anchor == 0 && !s.released && s.handles.Keys <= {0, 1} && 1 in s.handles && s.handles[1].weak == n
    && s.handles[1].holder == 7 && Linked(s, 1) && s.callers[1] > 0 && s.anchor in s.handles && s.handles[s.anchor].weak > 0
  }

  method AttachOne() returns (node: Node)
    ensures fresh(node) && OneRemote(node.s, 1)
  {
    node := new Node(0, 5);
    var r, warned := node.AcquireLocked(0, false, true, false);
    AddAndAttach(node);
  }

  method AddAndAttach(node: Node)
    requires Inv(node.s) && node.s.anchor == 0 && !node.s.released && node.s.handles.Keys == {0}
    requires node.s.handles[0].weak > 0 && node.s.links == map[]
    modifies node
    ensures OneRemote(node.s, 1)
  {
    node.AddRemote(1, 7);
    var r, warned := node.AcquireLocked(1, false, true, false);
  }

  method AttachAgain(node: Node, ghost n: nat)
    requires OneRemote(node.s, n) && n > 0
    modifies node
    ensures OneRemote(node.s, n + 1)
  {
    var r, warned := node.AcquireLocked(1, false, true, false);
  }

  /** A second remote of a holder can meet one that has any number of weak references; the code warns
      about it unless that number is one. */
  method ConflictWithMany(n: nat) returns (node: Node, warned: bool)
    ensures Inv(node.s) && warned == (n != 0)
  {
    node := AttachOne();
    for i := 0 to n
      invariant fresh(node) && OneRemote(node.s, i + 1)
    {
      AttachAgain(node, i + 1);
    }
    node.AddRemote(2, 7);
    assert Target(node.s, 2) == 1;
    var r;
    r, warned := node.AcquireLocked(2, false, true, false);
  }
}
