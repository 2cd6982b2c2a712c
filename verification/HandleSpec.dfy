/** One node as a value: its anchor handle, the remote handles other peers hold, and their counts. */
module HandleSpec {

  /** A handle. `pending` tells that its notification node is staged or queued, which pins a reference;
      `grouped` that this node was already given to a transaction. */
  datatype Handle = Handle(holder: nat, ref: nat, weak: nat, idLinked: bool, pending: bool, grouped: bool)

  /** A node with all its handles. `links` is the map of attached remotes by holder. `callers` records
      how many object references callers hold to each handle, `strongRefs` how many strong references
      they hold in all. */
  datatype State = State(
    anchor: nat,
    handles: map<nat, Handle>,
    links: map<nat, nat>,
    strong: nat,
    released: bool,
    destroyed: bool,
    callers: map<nat, nat>,
    strongRefs: nat)

  function One(b: bool): nat {
    if b then 1 else 0
  }

  /** By how much the strong count exceeds the strong references that were asked for. */
  function Excess(s: State): int {
    s.strong - s.strongRefs
  }

  predicate Linked(s: State, h: nat)
    requires h in s.handles
  {
    s.handles[h].holder in s.links && s.links[s.handles[h].holder] == h
  }

  /** What a handle's object references are taken for, besides those of callers. */
  function Pins(s: State, h: nat): nat
    requires h in s.handles
  {
    One(Linked(s, h)) + One(s.handles[h].weak > 0) + One(s.handles[h].idLinked) + One(s.handles[h].pending)
  }

  /** Object references are conserved: callers, pins and, for the anchor, one for every remote. */
  ghost predicate Counted(s: State, h: nat) {
    && h in s.handles && h in s.callers && s.handles[h].ref > 0
    && s.handles[h].ref == s.callers[h] + Pins(s, h) + (if h == s.anchor then |s.handles| - 1 else 0)
  }

  ghost predicate LinksOk(s: State) {
    forall p | p in s.links ::
      s.links[p] in s.handles && s.links[p] != s.anchor && s.handles[s.links[p]].holder == p
  }

  ghost predicate Conserved(s: State) {
    && s.callers.Keys == s.handles.Keys && (s.handles == map[] || s.anchor in s.handles)
    && (forall h {:trigger Counted(s, h)} | h in s.handles :: Counted(s, h))
    && LinksOk(s)
  }

  /** While the node is not released, its map holds exactly the remotes with weak references. */
  ghost predicate Mapped(s: State) {
    if s.released then s.links == map[]
    else
      && (forall h | h in s.handles && h != s.anchor :: s.handles[h].weak > 0 <==> Linked(s, h))
      && (s.links != map[] ==> s.anchor in s.handles && s.handles[s.anchor].weak > 0)
  }

  /** The anchor's notification node is queued as a release notification. */
  predicate ReleaseQueued(s: State) {
    s.anchor in s.handles && s.handles[s.anchor].pending && !s.destroyed
  }

  /** It is queued only on a live node that nobody holds a strong reference to. */
  ghost predicate Notified(s: State) {
    ReleaseQueued(s) ==> s.strong == 0 && !s.released
  }

  /** A remote's notification node is in use only after it was given to a transaction, and that is
      only ever the one that destroys the node. */
  ghost predicate Grouped(s: State) {
    forall h | h in s.handles && h != s.anchor ::
      (s.handles[h].pending ==> s.handles[h].grouped) && (s.handles[h].grouped ==> s.destroyed)
  }

  ghost predicate Inv(s: State) {
    Conserved(s) && Mapped(s) && Notified(s) && Grouped(s)
  }

  function Set(s: State, h: nat, handle: Handle): State {
    s.(handles := s.handles[h := handle])
  }

  // ----- object references

  function Get(s: State, h: nat): State
    requires h in s.handles && h in s.callers
  {
    Set(s, h, s.handles[h].(ref := s.handles[h].ref + 1)).(callers := s.callers[h := s.callers[h] + 1])
  }

  function Drop(s: State, h: nat): State {
    s.(handles := s.handles - {h}, callers := s.callers - {h})
  }

  /** A caller gives back a reference that is not the last one. */
  function Dec(s: State, h: nat): State
    requires h in s.handles && h in s.callers && s.callers[h] > 0 && s.handles[h].ref > 0
  {
    Set(s, h, s.handles[h].(ref := s.handles[h].ref - 1)).(callers := s.callers[h := s.callers[h] - 1])
  }

  /** Frees a remote handle. The reference it holds to the anchor is now the freeing caller's. */
  function FreeRemote(s: State, h: nat): State
    requires s.anchor in s.callers
  {
    Drop(s, h).(callers := (s.callers - {h})[s.anchor := s.callers[s.anchor] + 1])
  }

  /** Drops a caller's object reference. The last one frees the handle; a remote handle then drops the
      reference it holds to its anchor. */
  function Put(s: State, h: nat): State
    requires Conserved(s) && h in s.handles && s.callers[h] > 0
    decreases |s.handles|
  {
    assert Counted(s, h);
    if s.handles[h].ref > 1 then Dec(s, h)
    else if h == s.anchor then Drop(s, h)
    else
      FreeRemoteConserves(s, h);
      Put(FreeRemote(s, h), s.anchor)
  }

  lemma GetConserves(s: State, h: nat)
    requires Conserved(s) && h in s.handles
    ensures Conserved(Get(s, h))
  {
    forall x | x in Get(s, h).handles ensures Counted(Get(s, h), x) { assert Counted(s, x); }
  }

  lemma DecConserves(s: State, h: nat)
    requires Conserved(s) && h in s.handles && s.callers[h] > 0 && s.handles[h].ref > 1
    ensures Conserved(Dec(s, h))
  {
    forall x | x in Dec(s, h).handles ensures Counted(Dec(s, h), x) { assert Counted(s, x); }
  }

  /** A handle whose last reference is a caller's is not pinned, and an anchor then has no remotes. */
  lemma LastReference(s: State, h: nat)
    requires Conserved(s) && h in s.handles && s.callers[h] > 0 && s.handles[h].ref == 1
    ensures s.callers[h] == 1 && Pins(s, h) == 0 && (h == s.anchor ==> s.handles.Keys == {h})
  {
    assert Counted(s, h);
    if h == s.anchor {
      assert |s.handles - {h}| == 0;
    }
  }

  lemma FreeRemoteConserves(s: State, h: nat)
    requires Conserved(s) && h in s.handles && h != s.anchor && s.callers[h] > 0 && s.handles[h].ref == 1
    ensures Conserved(FreeRemote(s, h)) && |FreeRemote(s, h).handles| == |s.handles| - 1
  {
    var s' := FreeRemote(s, h);
    LastReference(s, h);
    forall x | x in s'.handles ensures Counted(s', x) { assert Counted(s, x); }
  }

  lemma {:induction false} PutConserves(s: State, h: nat)
    requires Conserved(s) && h in s.handles && s.callers[h] > 0
    ensures Conserved(Put(s, h))
    decreases |s.handles|
  {
    assert Counted(s, h);
    if s.handles[h].ref > 1 {
      DecConserves(s, h);
    } else if h == s.anchor {
      LastReference(s, h);
      assert Put(s, h).handles == map[];
    } else {
      FreeRemoteConserves(s, h);
      PutConserves(FreeRemote(s, h), s.anchor);
    }
  }

  /** Nothing but reference counts changed, and only handles that nothing pins were freed. */
  ghost predicate OnlyRefs(s: State, s': State) {
    && s' == s.(handles := s'.handles, callers := s'.callers)
    && (forall x | x in s'.handles ::
          x in s.handles && s'.handles[x] == s.handles[x].(ref := s'.handles[x].ref))
    && (forall x | x in s.handles && x !in s'.handles :: Pins(s, x) == 0)
  }

  /** Outside `but` no handle is new or changed its weak references, and none that has any is gone. */
  ghost predicate SameWeak(s: State, s': State, but: set<nat>) {
    && (forall x | x in s'.handles && x !in but :: x in s.handles && s'.handles[x].weak == s.handles[x].weak)
    && (forall x | x in s.handles && x !in but && s.handles[x].weak > 0 :: x in s'.handles)
  }

  lemma SameWeakCompose(s: State, s': State, s'': State, but: set<nat>)
    requires SameWeak(s, s', but) && SameWeak(s', s'', but)
    ensures SameWeak(s, s'', but)
  {
  }

  lemma OnlyRefsSameWeak(s: State, s': State, but: set<nat>)
    requires OnlyRefs(s, s')
    ensures SameWeak(s, s', but)
  {
  }

  lemma OnlyRefsCompose(s: State, s': State, s'': State)
    requires OnlyRefs(s, s') && OnlyRefs(s', s'')
    ensures OnlyRefs(s, s'')
  {
    forall x | x in s.handles && x !in s''.handles ensures Pins(s, x) == 0 {
      if x in s'.handles { assert Pins(s', x) == Pins(s, x); }
    }
  }

  lemma FreeOnlyRefs(s: State, h: nat)
    requires Conserved(s) && h in s.handles && s.callers[h] > 0 && s.handles[h].ref == 1
    ensures if h == s.anchor then OnlyRefs(s, Drop(s, h)) else OnlyRefs(s, FreeRemote(s, h))
  {
    LastReference(s, h);
  }

  lemma {:induction false} PutOnlyRefs(s: State, h: nat)
    requires Conserved(s) && h in s.handles && s.callers[h] > 0
    ensures OnlyRefs(s, Put(s, h))
    ensures s.handles[h].ref > 1 ==> Put(s, h) == Dec(s, h)
    decreases |s.handles|
  {
    assert Counted(s, h);
    if s.handles[h].ref == 1 {
      FreeOnlyRefs(s, h);
      if h != s.anchor {
        FreeRemoteConserves(s, h);
        PutOnlyRefs(FreeRemote(s, h), s.anchor);
        OnlyRefsCompose(s, FreeRemote(s, h), Put(s, h));
      }
    }
  }

  /** A caller other than the one that drops its reference keeps the handle alive. */
  lemma PutSpares(s: State, h: nat, x: nat)
    requires Conserved(s) && h in s.handles && s.callers[h] > 0
    requires x in s.handles && s.callers[x] > One(x == h)
    ensures x in Put(s, h).handles && x in Put(s, h).callers && Put(s, h).callers[x] == s.callers[x] - One(x == h)
  {
    assert Counted(s, h) && Counted(s, x);
    if s.handles[h].ref == 1 {
      LastReference(s, h);
      if h != s.anchor {
        FreeRemoteConserves(s, h);
        assert Counted(FreeRemote(s, h), s.anchor);
        assert x == s.anchor || |s.handles| > 2 by {
          if x != s.anchor { assert {x, h, s.anchor} <= s.handles.Keys; CardinalityAtLeast(s.handles.Keys, {x, h, s.anchor}); }
        }
      }
    }
  }

  /** No caller lost a reference or a handle it has one to. */
  ghost predicate Spares(s: State, s': State) {
    forall x | x in s.callers && s.callers[x] > 0 :: x in s'.callers && s'.callers[x] == s.callers[x]
  }

  /** What becomes of the handle itself when a reference to it is dropped. */
  lemma PutSelf(s: State, h: nat)
    requires Conserved(s) && h in s.handles && s.callers[h] > 0
    ensures h in Put(s, h).handles <==> s.handles[h].ref > 1
    ensures h in Put(s, h).handles ==> h in Put(s, h).callers && Put(s, h).callers[h] == s.callers[h] - 1
  {
    assert Counted(s, h);
    if s.handles[h].ref == 1 && h != s.anchor {
      FreeRemoteConserves(s, h);
      PutOnlyRefs(FreeRemote(s, h), s.anchor);
    }
  }

  /** A reference to `h` passed from a pin to the caller, if `more`; other callers have what they had. */
  ghost predicate SparesOthers(s: State, s': State, h: nat, more: bool) {
    && h in s.callers && h in s'.callers && s'.callers[h] == s.callers[h] + One(more)
    && forall x | x in s.callers && x != h && s.callers[x] > 0 :: x in s'.callers && s'.callers[x] == s.callers[x]
  }

  /** Once that reference is dropped too, no caller has lost anything. */
  lemma PutBack(s: State, s1: State, h: nat)
    requires Conserved(s1) && h in s1.handles && SparesOthers(s, s1, h, true)
    ensures Spares(s, Put(s1, h))
    ensures h in Put(s1, h).handles ==> h in Put(s1, h).callers && Put(s1, h).callers[h] == s.callers[h]
  {
    PutSelf(s1, h);
    forall x | x in s.callers && s.callers[x] > 0
      ensures x in Put(s1, h).callers && Put(s1, h).callers[x] == s.callers[x]
    {
      PutSpares(s1, h, x);
    }
  }

  lemma CardinalityAtLeast(a: set<nat>, b: set<nat>)
    requires b <= a
    ensures |b| <= |a|
  {
    assert |a - b| + |b| == |a| by { assert a == (a - b) + b; }
  }

  lemma OnlyRefsKeeps(s: State, s': State)
    requires OnlyRefs(s, s') && Conserved(s')
    ensures Mapped(s) ==> Mapped(s')
    ensures Notified(s) ==> Notified(s')
    ensures Grouped(s) ==> Grouped(s')
  {
  }

  lemma PutKeeps(s: State, h: nat)
    requires Inv(s) && h in s.handles && s.callers[h] > 0
    ensures Inv(Put(s, h))
  {
    PutConserves(s, h);
    PutOnlyRefs(s, h);
    OnlyRefsKeeps(s, Put(s, h));
  }

  /** A handle changes its pins; the references they stand for come from, or go to, a caller, or are
      newly taken. */
  function Repinned(s: State, h: nat, handle: Handle, refs: nat): State {
    Set(s, h, handle).(callers := s.callers[h := refs])
  }

  /** The pins the handle has after the change. */
  function PinsOf(s: State, h: nat, handle: Handle): nat
    requires h in s.handles
  {
    One(Linked(s, h)) + One(handle.weak > 0) + One(handle.idLinked) + One(handle.pending)
  }

  lemma RepinConserves(s: State, h: nat, handle: Handle, refs: nat)
    requires Conserved(s) && h in s.handles && handle.holder == s.handles[h].holder && handle.ref > 0
    requires handle.ref - refs - PinsOf(s, h, handle) == s.handles[h].ref - s.callers[h] - Pins(s, h)
    ensures Conserved(Repinned(s, h, handle, refs))
  {
    var s' := Repinned(s, h, handle, refs);
    assert s'.handles.Keys == s.handles.Keys;
    forall x | x in s'.handles ensures Counted(s', x) { assert Counted(s, x); }
  }

  lemma RepinInPlace(s: State, h: nat, handle: Handle)
    requires h in s.callers
    ensures Repinned(s, h, handle, s.callers[h]) == Set(s, h, handle)
  {
    assert s.callers[h := s.callers[h]] == s.callers;
  }

  /** One handle changed, but neither its holder nor its weak references. */
  lemma RepinKeepsMap(s: State, h: nat, handle: Handle, callers: map<nat, nat>)
    requires h in s.handles && handle.holder == s.handles[h].holder && handle.weak == s.handles[h].weak
    ensures Mapped(s) <==> Mapped(Set(s, h, handle).(callers := callers))
  {
    var s' := Set(s, h, handle).(callers := callers);
    assert forall x | x in s.handles :: s'.handles[x].holder == s.handles[x].holder && s'.handles[x].weak == s.handles[x].weak;
    assert s'.handles.Keys == s.handles.Keys;
  }

  /** One handle changed, but its notification node did not become pending. */
  lemma RepinKeepsNotes(s: State, h: nat, handle: Handle, callers: map<nat, nat>)
    requires h in s.handles && (handle.pending ==> s.handles[h].pending) && handle.grouped == s.handles[h].grouped
    ensures Notified(s) ==> Notified(Set(s, h, handle).(callers := callers))
    ensures Grouped(s) ==> Grouped(Set(s, h, handle).(callers := callers))
  {
  }

  /** So it keeps all invariants if it conserves references. */
  lemma RepinKeeps(s: State, h: nat, handle: Handle, refs: nat)
    requires Inv(s) && h in s.handles && handle.holder == s.handles[h].holder && handle.weak == s.handles[h].weak
    requires (handle.pending ==> s.handles[h].pending) && handle.grouped == s.handles[h].grouped && handle.ref > 0
    requires handle.ref - refs - PinsOf(s, h, handle) == s.handles[h].ref - s.callers[h] - Pins(s, h)
    ensures Inv(Repinned(s, h, handle, refs))
  {
    var callers := s.callers[h := refs];
    RepinConserves(s, h, handle, refs);
    RepinKeepsMap(s, h, handle, callers);
    RepinKeepsNotes(s, h, handle, callers);
  }

  // ----- notifications

  /** Queues the release notification, which pins the anchor, unless it is queued or too late. */
  function QueueRelease(s: State): State
    requires s.anchor in s.handles
  {
    var a := s.handles[s.anchor];
    if s.released || s.destroyed || a.pending then s
    else Set(s, s.anchor, a.(pending := true, ref := a.ref + 1))
  }

  /** The release notification leaves the queue, and its reference is the remover's to drop. */
  function Unqueued(s: State): State
    requires s.anchor in s.handles && s.anchor in s.callers
  {
    Set(s, s.anchor, s.handles[s.anchor].(pending := false)).(callers := s.callers[s.anchor := s.callers[s.anchor] + 1])
  }

  function FlushRelease(s: State): State
    requires Conserved(s) && s.anchor in s.handles
  {
    if s.released || s.destroyed || !s.handles[s.anchor].pending then s
    else
      UnqueuedConserves(s);
      Put(Unqueued(s), s.anchor)
  }

  lemma UnqueuedConserves(s: State)
    requires Conserved(s) && s.anchor in s.handles && s.handles[s.anchor].pending
    ensures Conserved(Unqueued(s)) && Unqueued(s).callers[s.anchor] > 0
  {
    assert Counted(s, s.anchor);
    RepinConserves(s, s.anchor, s.handles[s.anchor].(pending := false), s.callers[s.anchor] + 1);
  }

  /** Taking the release notification off the queue keeps the invariants. */
  lemma FlushReleaseKeeps(s: State)
    requires Conserved(s) && s.anchor in s.handles
    ensures Conserved(FlushRelease(s))
    ensures Mapped(s) ==> Mapped(FlushRelease(s))
    ensures Grouped(s) ==> Grouped(FlushRelease(s))
    ensures !s.released ==> !ReleaseQueued(FlushRelease(s))
    ensures FlushRelease(s) == s.(handles := FlushRelease(s).handles, callers := FlushRelease(s).callers)
  {
    if !(s.released || s.destroyed || !s.handles[s.anchor].pending) {
      UnqueuedConserves(s);
      var u := Unqueued(s);
      PutConserves(u, s.anchor);
      PutOnlyRefs(u, s.anchor);
      OnlyRefsKeeps(u, Put(u, s.anchor));
    }
  }

  lemma QueueReleaseKeeps(s: State)
    requires Inv(s) && s.anchor in s.handles && s.strong == 0
    ensures Inv(QueueRelease(s))
  {
    var a := s.handles[s.anchor];
    if !(s.released || s.destroyed || a.pending) {
      assert Counted(s, s.anchor);
      RepinConserves(s, s.anchor, a.(pending := true, ref := a.ref + 1), s.callers[s.anchor]);
      RepinInPlace(s, s.anchor, a.(pending := true, ref := a.ref + 1));
    }
  }

  // ----- weak references

  /** One more weak reference; the first one pins the handle. */
  function AddWeak(s: State, h: nat): State
    requires h in s.handles
  {
    var x := s.handles[h];
    Set(s, h, x.(weak := x.weak + 1, ref := x.ref + One(x.weak == 0)))
  }

  /** Links a remote handle into the map of its node, with the notification it got if it joined an
      ongoing destruction. */
  function Splice(s: State, h: nat, tries: bool, joins: bool): State
    requires h in s.handles
  {
    var x := s.handles[h];
    var join := tries && joins;
    Set(s, h, x.(ref := x.ref + 1 + One(join), pending := x.pending || join, grouped := x.grouped || tries))
    .(links := s.links[x.holder := h])
  }

  lemma AddWeakConserves(s: State, h: nat)
    requires Conserved(s) && h in s.handles
    ensures Conserved(AddWeak(s, h))
  {
    var x := s.handles[h];
    assert Counted(s, h);
    RepinConserves(s, h, x.(weak := x.weak + 1, ref := x.ref + One(x.weak == 0)), s.callers[h]);
    RepinInPlace(s, h, x.(weak := x.weak + 1, ref := x.ref + One(x.weak == 0)));
  }

  lemma SpliceConserves(s: State, h: nat, tries: bool, joins: bool)
    requires Conserved(s) && h in s.handles && h != s.anchor && s.handles[h].holder !in s.links
    requires tries && joins ==> !s.handles[h].pending
    ensures Conserved(Splice(s, h, tries, joins))
  {
    var s' := Splice(s, h, tries, joins);
    forall x | x in s'.handles ensures Counted(s', x) { assert Counted(s, x); }
  }

  lemma AttachRemoteMaps(s: State, s': State, h: nat, tries: bool, joins: bool)
    requires LinksOk(s) && Mapped(s) && Notified(s) && Grouped(s) && s.anchor in s.handles
    requires h in s.handles && h != s.anchor && !s.released && s.handles[s.anchor].weak > 0
    requires s.handles[h].holder !in s.links && s' == AddWeak(Splice(s, h, tries, joins), h)
    requires tries ==> s.destroyed
    ensures Mapped(s') && Notified(s') && Grouped(s')
  {
  }

  /** Attaching a remote handle whose holder has none in the map keeps the invariants. */
  lemma AttachRemoteKeeps(s: State, h: nat, tries: bool, joins: bool)
    requires Inv(s) && h in s.handles && h != s.anchor && !s.released && s.handles[h].weak == 0
    requires s.handles[h].holder !in s.links && s.handles[s.anchor].weak > 0
    requires tries ==> s.destroyed && !s.handles[h].grouped
    ensures Inv(AddWeak(Splice(s, h, tries, joins), h))
  {
    SpliceConserves(s, h, tries, joins);
    AddWeakConserves(Splice(s, h, tries, joins), h);
    AttachRemoteMaps(s, AddWeak(Splice(s, h, tries, joins), h), h, tries, joins);
  }

  /** Attaching the anchor, attaching to a released node, or taking a further weak reference. */
  lemma AddWeakKeeps(s: State, h: nat)
    requires Inv(s) && h in s.handles
    requires s.handles[h].weak > 0 || s.released || h == s.anchor
    ensures Inv(AddWeak(s, h))
  {
    AddWeakConserves(s, h);
  }

  /** One weak reference less; the reference the last one pinned is the releaser's to drop. */
  function SubWeak(s: State, h: nat): State
    requires h in s.handles && h in s.callers && s.handles[h].weak > 0
  {
    var x := s.handles[h];
    Set(s, h, x.(weak := x.weak - 1)).(callers := s.callers[h := s.callers[h] + One(x.weak == 1)])
  }

  lemma SubWeakConserves(s: State, h: nat)
    requires Conserved(s) && h in s.handles && s.handles[h].weak > 0
    ensures Conserved(SubWeak(s, h))
  {
    assert Counted(s, h);
    RepinConserves(s, h, s.handles[h].(weak := s.handles[h].weak - 1), s.callers[h] + One(s.handles[h].weak == 1));
  }

  /** A holder's link leaves the map, and its reference is the remover's to drop. */
  function Unlinked(s: State, p: nat): State
    requires p in s.links && s.links[p] in s.callers
  {
    var h := s.links[p];
    s.(links := s.links - {p}, callers := s.callers[h := s.callers[h] + 1])
  }

  lemma UnlinkedConserves(s: State, p: nat)
    requires Conserved(s) && p in s.links
    ensures Conserved(Unlinked(s, p))
  {
    var s' := Unlinked(s, p);
    forall x | x in s'.handles ensures Counted(s', x) { assert Counted(s, x); }
  }

  lemma FlushReleaseKeepsWeak(s: State)
    requires Conserved(s) && s.anchor in s.handles
    ensures SameWeak(s, FlushRelease(s), {})
  {
    if !(s.released || s.destroyed || !s.handles[s.anchor].pending) {
      UnqueuedConserves(s);
      PutOnlyRefs(Unqueued(s), s.anchor);
    }
  }

  /** Taking the notification off the queue costs no caller a handle. */
  lemma FlushReleaseSpares(s: State, x: nat)
    requires Conserved(s) && s.anchor in s.handles && x in s.handles && s.callers[x] > 0
    ensures x in FlushRelease(s).handles && x in FlushRelease(s).callers
    ensures FlushRelease(s).callers[x] == s.callers[x]
    ensures FlushRelease(s).handles[x].weak == s.handles[x].weak
    ensures FlushRelease(s).handles[x].holder == s.handles[x].holder
  {
    if !(s.released || s.destroyed || !s.handles[s.anchor].pending) {
      UnqueuedConserves(s);
      PutSpares(Unqueued(s), s.anchor, x);
      PutOnlyRefs(Unqueued(s), s.anchor);
    }
  }

  lemma FlushReleaseSparesAll(s: State)
    requires Conserved(s) && s.anchor in s.handles
    ensures Spares(s, FlushRelease(s))
  {
    forall x | x in s.callers && s.callers[x] > 0
      ensures x in FlushRelease(s).callers && FlushRelease(s).callers[x] == s.callers[x]
    {
      FlushReleaseSpares(s, x);
    }
  }

  // ----- strong references

  function MoreStrong(s: State): State {
    s.(strong := s.strong + 1, strongRefs := s.strongRefs + 1)
  }

  lemma MoreStrongConserves(s: State)
    requires Conserved(s)
    ensures Conserved(MoreStrong(s))
  {
    forall x | x in s.handles ensures Counted(MoreStrong(s), x) { assert Counted(s, x); }
  }

  /** One more strong reference; the first one takes back the release notification. */
  function AddStrong(s: State): State
    requires Conserved(s) && s.anchor in s.handles
  {
    MoreStrongConserves(s);
    if s.strong == 0 && !s.released then FlushRelease(MoreStrong(s)) else MoreStrong(s)
  }

  lemma AddStrongKeeps(s: State)
    requires Inv(s) && s.anchor in s.handles
    ensures Inv(AddStrong(s)) && !ReleaseQueued(AddStrong(s))
    ensures var s' := AddStrong(s);
            s' == s.(handles := s'.handles, callers := s'.callers, strong := s.strong + 1, strongRefs := s.strongRefs + 1)
  {
    MoreStrongConserves(s);
    if s.strong == 0 && !s.released { FlushReleaseKeeps(MoreStrong(s)); }
  }

  lemma AddStrongSpares(s: State, h: nat)
    requires Conserved(s) && s.anchor in s.handles && h in s.handles && s.callers[h] > 0
    ensures var s' := AddStrong(s);
            && h in s'.handles && Spares(s, s')
            && s'.handles[h].holder == s.handles[h].holder
            && SameWeak(s, s', {})
  {
    MoreStrongConserves(s);
    FlushReleaseKeepsWeak(MoreStrong(s));
    FlushReleaseSpares(MoreStrong(s), h);
    FlushReleaseSparesAll(MoreStrong(s));
  }

  function LessStrong(s: State): State
    requires s.strong > 0 && s.strongRefs > 0
  {
    s.(strong := s.strong - 1, strongRefs := s.strongRefs - 1)
  }

  lemma LessStrongKeeps(s: State)
    requires Inv(s) && s.strong > 0 && s.strongRefs > 0
    ensures Inv(LessStrong(s))
  {
    var t := LessStrong(s);
    assert Conserved(t) by {
      forall x | x in t.handles ensures Counted(t, x) { assert Counted(s, x); }
    }
  }

  lemma QueueReleaseEffect(s: State)
    requires s.anchor in s.handles
    ensures var s' := QueueRelease(s);
            && s' == s.(handles := s'.handles) && s'.handles.Keys == s.handles.Keys
            && SameWeak(s, s', {})
            && (!s.released && !s.destroyed ==> ReleaseQueued(s'))
  {
  }

  /** One strong reference less; the last one queues the release notification. */
  function SubStrong(s: State): State
    requires s.anchor in s.handles && s.strong > 0 && s.strongRefs > 0
  {
    if s.strong == 1 then QueueRelease(LessStrong(s)) else LessStrong(s)
  }

  lemma SubStrongKeeps(s: State)
    requires Inv(s) && s.anchor in s.handles && s.strong > 0 && s.strongRefs > 0
    ensures Inv(SubStrong(s))
    ensures var s' := SubStrong(s);
            && s' == s.(handles := s'.handles, strong := s.strong - 1, strongRefs := s.strongRefs - 1)
            && s'.handles.Keys == s.handles.Keys
            && SameWeak(s, s', {})
    ensures s.strong == 1 && !s.released && !s.destroyed ==> ReleaseQueued(SubStrong(s))
  {
    LessStrongKeeps(s);
    if s.strong == 1 {
      QueueReleaseKeeps(LessStrong(s));
      QueueReleaseEffect(LessStrong(s));
    }
  }

  // ----- fresh handles

  /** A fresh remote handle with one object reference for its creator; it pins the anchor. */
  function NewRemote(s: State, id: nat, holder: nat): State
    requires s.anchor in s.handles
  {
    var a := s.handles[s.anchor];
    s.(handles := s.handles[s.anchor := a.(ref := a.ref + 1)][id := Handle(holder, 1, 0, false, false, false)],
       callers := s.callers[id := 1])
  }

  lemma NewRemoteCounts(s: State, id: nat, holder: nat, x: nat)
    requires s.anchor in s.handles && id !in s.handles && LinksOk(s) && Counted(s, x)
    ensures Counted(NewRemote(s, id, holder), x)
  {
    var s' := NewRemote(s, id, holder);
    assert s'.handles.Keys == s.handles.Keys + {id} && |s'.handles| == |s.handles| + 1;
    assert Linked(s', x) == Linked(s, x);
  }

  lemma NewRemoteConserves(s: State, id: nat, holder: nat)
    requires Conserved(s) && s.anchor in s.handles && id !in s.handles
    ensures Conserved(NewRemote(s, id, holder))
  {
    var s' := NewRemote(s, id, holder);
    assert forall p | p in s.links :: s.links[p] != id;
    forall x | x in s'.handles ensures Counted(s', x) {
      if x != id {
        assert Counted(s, x);
        NewRemoteCounts(s, id, holder, x);
      }
    }
  }

  lemma NewRemoteKeeps(s: State, id: nat, holder: nat)
    requires Inv(s) && s.anchor in s.handles && id !in s.handles
    ensures Inv(NewRemote(s, id, holder))
  {
    NewRemoteConserves(s, id, holder);
    assert forall p | p in s.links :: s.links[p] != id;
  }

  // ----- detaching

  /** A remote handle that lost its last weak reference leaves the map. Two references pass to the
      releaser on the way, one of which it drops at once. */
  lemma DetachRemoteKeeps(s: State, h: nat)
    requires Inv(s) && h in s.handles && h != s.anchor && !s.released && s.handles[h].weak == 1
    ensures var s1 := SubWeak(s, h);
            && Conserved(s1) && s.handles[h].holder in s1.links && s1.links[s.handles[h].holder] == h
            && var s2 := Unlinked(s1, s.handles[h].holder);
            && Conserved(s2) && s2.callers[h] == s.callers[h] + 2
            && Inv(Put(s2, h)) && OnlyRefs(s2, Put(s2, h))
            && h in Put(s2, h).handles && h in Put(s2, h).callers && Put(s2, h).callers[h] == s.callers[h] + 1
  {
    var p := s.handles[h].holder;
    SubWeakConserves(s, h);
    UnlinkedConserves(SubWeak(s, h), p);
    var s2 := Unlinked(SubWeak(s, h), p);
    assert Mapped(s2);
    PutKeeps(s2, h);
    PutOnlyRefs(s2, h);
    PutSpares(s2, h, h);
  }

  ghost predicate Detachable(s: State, h: nat) {
    Inv(s) && h in s.handles && h != s.anchor && !s.released && s.handles[h].weak == 1
  }

  /** The last weak reference to a remote handle is gone. */
  function DetachRemote(s: State, h: nat): State
    requires Detachable(s, h)
  {
    DetachRemoteKeeps(s, h);
    Put(Unlinked(SubWeak(s, h), s.handles[h].holder), h)
  }

  lemma DetachRemoteEffect(s: State, h: nat)
    requires Detachable(s, h)
    ensures var s' := DetachRemote(s, h);
            && Inv(s') && s' == s.(handles := s'.handles, callers := s'.callers, links := s.links - {s.handles[h].holder})
            && h in s'.handles && s'.handles[h].weak == 0 && SparesOthers(s, s', h, true)
            && SameWeak(s, s', {h})
  {
    DetachRemoteKeeps(s, h);
    var s2 := Unlinked(SubWeak(s, h), s.handles[h].holder);
    forall x | x in s.callers && x != h && s.callers[x] > 0
      ensures x in Put(s2, h).callers && Put(s2, h).callers[x] == s.callers[x]
    {
      PutSpares(s2, h, x);
    }
  }

  /** A link leaves the map together with the reference it held. */
  function DropLink(s: State, p: nat): State
    requires Conserved(s) && p in s.links
  {
    UnlinkedConserves(s, p);
    Put(Unlinked(s, p), s.links[p])
  }

  lemma DropLinkConserves(s: State, p: nat)
    requires Conserved(s) && p in s.links && s.callers[s.anchor] > 0
    ensures var s' := DropLink(s, p);
            && Conserved(s') && s' == s.(handles := s'.handles, callers := s'.callers, links := s.links - {p})
            && s.anchor in s'.handles && Spares(s, s') && SameWeak(s, s', {})
            && forall x | x in s'.handles :: x in s.handles && s'.handles[x] == s.handles[x].(ref := s'.handles[x].ref)
  {
    UnlinkedConserves(s, p);
    var u, t := Unlinked(s, p), s.links[p];
    PutConserves(u, t);
    PutOnlyRefs(u, t);
    PutBack(s, u, t);
  }

  lemma SubWeakKeeps(s: State, h: nat)
    requires Inv(s) && h in s.handles && s.handles[h].weak > 0
    requires s.handles[h].weak > 1 || s.released
    ensures Inv(SubWeak(s, h))
  {
    SubWeakConserves(s, h);
  }

  // ----- notification nodes and identifiers

  /** The notification node of a handle goes into a transaction, which pins the handle. */
  function Staged(s: State, h: nat): State
    requires h in s.handles
  {
    var x := s.handles[h];
    Set(s, h, x.(pending := true, grouped := true, ref := x.ref + 1))
  }

  lemma StagedConserves(s: State, h: nat)
    requires Conserved(s) && h in s.handles && !s.handles[h].pending
    ensures Conserved(Staged(s, h))
  {
    var x := s.handles[h].(pending := true, grouped := true, ref := s.handles[h].ref + 1);
    assert Counted(s, h);
    RepinConserves(s, h, x, s.callers[h]);
    RepinInPlace(s, h, x);
  }

  lemma StagedKeeps(s: State, h: nat)
    requires Inv(s) && h in s.handles && !s.handles[h].pending && s.destroyed
    ensures Inv(Staged(s, h))
  {
    StagedConserves(s, h);
    RepinKeepsMap(s, h, s.handles[h].(pending := true, grouped := true, ref := s.handles[h].ref + 1), s.callers);
  }

  predicate Pinned(handle: Handle, notification: bool) {
    if notification then handle.pending else handle.idLinked
  }

  function WithoutPin(handle: Handle, notification: bool): Handle {
    if notification then handle.(pending := false) else handle.(idLinked := false)
  }

  /** The pin of a notification or of an identifier is undone; its reference is the caller's to drop. */
  function Unpinned(s: State, h: nat, notification: bool): State
    requires h in s.handles && h in s.callers
  {
    Repinned(s, h, WithoutPin(s.handles[h], notification), s.callers[h] + 1)
  }

  function Unpin(s: State, h: nat, notification: bool): State
    requires Inv(s) && h in s.handles && Pinned(s.handles[h], notification)
  {
    UnpinnedKeeps(s, h, notification);
    Put(Unpinned(s, h, notification), h)
  }

  lemma OnePinLess(s: State, h: nat, notification: bool)
    requires h in s.handles && Pinned(s.handles[h], notification)
    ensures PinsOf(s, h, WithoutPin(s.handles[h], notification)) == Pins(s, h) - 1
  {
  }

  lemma RefIsPositive(s: State, h: nat)
    requires Conserved(s) && h in s.handles
    ensures s.handles[h].ref > 0 && h in s.callers
  {
    assert Counted(s, h);
  }

  lemma UnpinnedKeeps(s: State, h: nat, notification: bool)
    requires Inv(s) && h in s.handles && Pinned(s.handles[h], notification)
    ensures Inv(Unpinned(s, h, notification))
  {
    OnePinLess(s, h, notification);
    RefIsPositive(s, h);
    RepinKeeps(s, h, WithoutPin(s.handles[h], notification), s.callers[h] + 1);
  }

  function WithId(handle: Handle): Handle {
    handle.(idLinked := true, ref := handle.ref + One(!handle.idLinked))
  }

  /** A handle gets an identifier, which pins it. */
  function Identified(s: State, h: nat): State
    requires h in s.handles
  {
    Set(s, h, WithId(s.handles[h]))
  }

  lemma IdIsPinned(s: State, h: nat)
    requires h in s.handles
    ensures PinsOf(s, h, WithId(s.handles[h])) - Pins(s, h) == WithId(s.handles[h]).ref - s.handles[h].ref
  {
  }

  lemma IdentifiedKeeps(s: State, h: nat)
    requires Inv(s) && h in s.handles
    ensures Inv(Identified(s, h))
  {
    RefIsPositive(s, h);
    IdIsPinned(s, h);
    RepinKeeps(s, h, WithId(s.handles[h]), s.callers[h]);
    RepinInPlace(s, h, WithId(s.handles[h]));
  }

  /** The node is marked destroyed, and its release notification, if queued, is taken back. */
  function MarkDestroyed(s: State): State
    requires Conserved(s) && s.anchor in s.handles
  {
    FlagConserves(s);
    var t := s.(destroyed := true);
    if s.handles[s.anchor].pending then
      UnqueuedConserves(t);
      Put(Unqueued(t), s.anchor)
    else t
  }

  lemma FlagConserves(s: State)
    requires Conserved(s)
    ensures Conserved(s.(destroyed := true))
  {
    forall x | x in s.handles ensures Counted(s.(destroyed := true), x) { assert Counted(s, x); }
  }

  /** Something other than its notification holds the anchor. */
  predicate AnchorHeld(s: State) {
    s.anchor in s.handles && s.handles[s.anchor].ref > One(s.handles[s.anchor].pending)
  }

  lemma UnqueuedKeeps(s: State)
    requires Inv(s) && s.destroyed && s.anchor in s.handles && s.handles[s.anchor].pending
    ensures Inv(Unqueued(s))
  {
    UnqueuedConserves(s);
    var u := Unqueued(s);
    RepinKeepsMap(s, s.anchor, u.handles[s.anchor], u.callers);
  }

  lemma FlagKeeps(s: State)
    requires Inv(s)
    ensures Inv(s.(destroyed := true))
  {
    FlagConserves(s);
  }

  lemma MarkDestroyedKeeps(s: State)
    requires Inv(s) && AnchorHeld(s)
    ensures var s' := MarkDestroyed(s);
            && Inv(s') && s' == s.(handles := s'.handles, destroyed := true) && s'.handles.Keys == s.handles.Keys
            && !s'.handles[s.anchor].pending && s'.handles[s.anchor].weak == s.handles[s.anchor].weak
            && forall x | x in s.handles && x != s.anchor :: s'.handles[x] == s.handles[x]
  {
    FlagKeeps(s);
    var t := s.(destroyed := true);
    if s.handles[s.anchor].pending {
      UnqueuedKeeps(t);
      var u := Unqueued(t);
      PutKeeps(u, s.anchor);
      PutOnlyRefs(u, s.anchor);
      assert Dec(u, s.anchor).callers == s.callers;
    }
  }

  // ----- fast paths

  /** Moves a weak count between positive values, which takes no lock. */
  function WeakTo(s: State, h: nat, weak: nat): State
    requires h in s.handles
  {
    Set(s, h, s.handles[h].(weak := weak))
  }

  lemma WeakToKeeps(s: State, h: nat, weak: nat)
    requires Inv(s) && h in s.handles && s.handles[h].weak > 0 && weak > 0
    ensures Inv(WeakTo(s, h, weak))
  {
    var x := s.handles[h].(weak := weak);
    assert Counted(s, h);
    RepinConserves(s, h, x, s.callers[h]);
    RepinInPlace(s, h, x);
    RepinKeepsNotes(s, h, x, s.callers);
    assert Set(s, h, x).(callers := s.callers) == WeakTo(s, h, weak);
  }

  /** Moves the strong count between positive values, which takes no lock either. */
  function StrongTo(s: State, strong: nat, strongRefs: nat): State {
    s.(strong := strong, strongRefs := strongRefs)
  }

  lemma StrongToKeeps(s: State, strong: nat, strongRefs: nat)
    requires Inv(s) && s.strong > 0 && strong > 0
    ensures Inv(StrongTo(s, strong, strongRefs))
  {
    var t := StrongTo(s, strong, strongRefs);
    forall x | x in t.handles ensures Counted(t, x) { assert Counted(s, x); }
  }
}
