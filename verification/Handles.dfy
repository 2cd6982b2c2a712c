/** The operations on the handles of one node. Each is a section under the data locks of the owner and
    the holder, taken while the owner is active. */
module Handles {
  import opened HandleSpec

  /** The handle an acquisition ends up with: another one of the same holder that is in the map. */
  function Target(s: State, h: nat): nat
    requires h in s.handles
  {
    var p := s.handles[h].holder;
    if !s.released && h != s.anchor && s.handles[h].weak == 0 && p in s.links then s.links[p] else h
  }

  /** The acquisition gives way to a handle that has other than one weak reference. */
  predicate Warns(s: State, h: nat)
    requires h in s.handles
  {
    Target(s, h) != h && Target(s, h) in s.handles && s.handles[Target(s, h)].weak != 1
  }

  /** `n` weak references, and as many strong ones if asked, are gone. The handle may be too, if those
      were the last weak ones; the node is released if it was the anchor's. */
  ghost predicate Released(s: State, s': State, h: nat, n: nat, strong: bool)
    requires h in s.handles
  {
    && s'.anchor == s.anchor && s'.destroyed == s.destroyed
    && s'.strong == s.strong - (if strong then n else 0) && s'.strongRefs == s.strongRefs - (if strong then n else 0)
    && s'.released == (s.released || (h == s.anchor && s.handles[h].weak == n > 0))
    && (if h in s'.handles
        then s'.handles[h].weak == s.handles[h].weak - n && h in s'.callers && h in s.callers && s'.callers[h] == s.callers[h]
        else s.handles[h].weak == n)
    && SameWeak(s, s', {h}) && Spares(s, s')
  }

  /** A release before its end: the releaser has the reference that the last weak one pinned. */
  ghost predicate Dropped(s: State, s': State, h: nat, strong: bool)
    requires h in s.handles
  {
    && s'.anchor == s.anchor && s'.destroyed == s.destroyed
    && s'.strong == s.strong - One(strong) && s'.strongRefs == s.strongRefs - One(strong)
    && s'.released == (s.released || (h == s.anchor && s.handles[h].weak == 1))
    && h in s'.handles && s'.handles[h].weak == s.handles[h].weak - 1
    && SparesOthers(s, s', h, s.handles[h].weak == 1) && SameWeak(s, s', {h})
  }

  /** Of the remotes, exactly the attached ones with a holder in `done` have a pending notification. */
  ghost predicate StagedUpTo(s: State, done: set<nat>) {
    forall x | x in s.handles && x != s.anchor ::
      s.handles[x].pending <==> Linked(s, x) && s.handles[x].holder in done
  }

  /** No weak reference, and nothing of the anchor, changed. */
  ghost predicate OnlyStaged(s: State, s': State) {
    && s'.handles.Keys == s.handles.Keys
    && (forall x | x in s.handles :: s'.handles[x].weak == s.handles[x].weak)
    && (s.anchor in s.handles ==> s'.handles[s.anchor] == s.handles[s.anchor])
  }

  lemma StagedOne(s: State, p: nat, done: set<nat>)
    requires LinksOk(s) && p in s.links && p !in done && StagedUpTo(s, done)
    ensures StagedUpTo(Staged(s, s.links[p]), done + {p}) && OnlyStaged(s, Staged(s, s.links[p]))
  {
  }

  /** An acquisition uses up at most the caller's own reference to the handle it was given. */
  ghost predicate UsesUp(s: State, s': State, h: nat) {
    forall x | x in s.callers && s.callers[x] > One(x == h) ::
      x in s'.callers && s'.callers[x] >= s.callers[x] - One(x == h)
  }

  /** The caller's reference to `h` was traded for one to `r`, if that is another handle: it is dropped,
      which frees `h` if it was the last one. Nobody else gains or loses a reference or a handle. */
  ghost predicate Traded(s: State, s': State, h: nat, r: nat)
    requires h in s.handles
  {
    && (forall x | x in s'.handles :: x in s.handles)
    && (forall x | x in s.handles && x != h ::
          x in s'.handles && x in s.callers && x in s'.callers && s'.callers[x] == s.callers[x] + One(x == r))
    && (h in s'.handles <==> r == h || s.handles[h].ref > 1)
    && (h in s'.handles ==> h in s.callers && h in s'.callers && s'.callers[h] == s.callers[h] - One(r != h))
  }

  /** The acquisition attaches the handle, which is a remote of a live node. */
  predicate Attaches(s: State, h: nat)
    requires h in s.handles
  {
    s.handles[h].weak == 0 && !s.released && h != s.anchor && s.handles[h].holder !in s.links
  }

  /** Identifiers and notifications of remotes stay as they are, except that a handle that is attached to a
      node being destroyed tries once to join that, if its holder is active: the try is recorded, and
      the notification is pending if it succeeds. */
  ghost predicate Marked(s: State, s': State, h: nat, active: bool, joins: bool)
    requires h in s.handles
  {
    forall x | x in s.handles && x in s'.handles && x != s.anchor ::
      var tries := x == h && Attaches(s, h) && s.destroyed && !s.handles[h].grouped && active;
      && s'.handles[x].idLinked == s.handles[x].idLinked
      && (s'.handles[x].grouped <==> s.handles[x].grouped || tries)
      && (s'.handles[x].pending <==> s.handles[x].pending || (tries && joins))
  }

  /** The handle has one more weak reference, and is attached if it is a remote of a live node. */
  ghost predicate TookWeak(s: State, s': State, h: nat)
    requires h in s.handles
  {
    && s' == s.(handles := s'.handles, links := s'.links) && SameWeak(s, s', {h})
    && h in s'.handles && s'.handles[h].weak == s.handles[h].weak + 1 && s'.handles[h].holder == s.handles[h].holder
    && (!s.released && h != s.anchor ==> Linked(s', h))
  }

  /** The caller's reference to the handle was exchanged for one to the handle in the map. */
  ghost predicate Exchanged(s: State, s': State, h: nat)
    requires h in s.handles
  {
    var r := Target(s, h);
    && s' == s.(handles := s'.handles, callers := s'.callers) && SameWeak(s, s', {}) && UsesUp(s, s', h)
    && r in s.handles && r in s'.handles && r != s.anchor && s.handles[r].weak > 0
    && s'.handles[r].holder == s.handles[r].holder
    && r in s.callers && r in s'.callers && s'.callers[r] == s.callers[r] + 1
    && s.anchor in s'.handles && s'.handles[s.anchor].weak > 0
  }

  /** There is one more strong reference, and no release notification. */
  ghost predicate TookStrong(s: State, s': State, h: nat)
    requires h in s.handles
  {
    && s' == s.(handles := s'.handles, callers := s'.callers, strong := s.strong + 1, strongRefs := s.strongRefs + 1)
    && !ReleaseQueued(s') && Spares(s, s') && SameWeak(s, s', {})
    && h in s'.handles && s'.handles[h].holder == s.handles[h].holder
  }

  /** A weak reference to `r`, and a strong one if asked, were taken in exchange for nothing but the
      caller's reference to `h`, if that is another handle. */
  ghost predicate Acquired(s: State, s': State, h: nat, r: nat, strong: bool)
    requires r in s.handles && r in s.callers
  {
    && s'.released == s.released && s'.destroyed == s.destroyed && s'.anchor == s.anchor
    && r in s'.handles && s'.handles[r].weak == s.handles[r].weak + 1 && s'.handles[r].holder == s.handles[r].holder
    && r in s'.callers && s'.callers[r] == s.callers[r] + One(r != h)
    && (!s.released && r != s.anchor ==> Linked(s', r))
    && s'.strong == s.strong + One(strong) && s'.strongRefs == s.strongRefs + One(strong)
    && (strong ==> !ReleaseQueued(s'))
    && UsesUp(s, s', h) && SameWeak(s, s', {r, h})
  }

  /** `held` records through which handle each strong reference is held. */
  class Node {
    var s: State
    var held: multiset<nat>

    /** A fresh anchor, with one object reference for the caller. */
    constructor (anchor: nat, owner: nat)
      ensures Inv(s) && held == multiset{}
      ensures s == State(anchor, map[anchor := Handle(owner, 1, 0, false, false, false)], map[], 0, false, false, map[anchor := 1], 0)
    {
      var h := Handle(owner, 1, 0, false, false, false);
      s := State(anchor, map[anchor := h], map[], 0, false, false, map[anchor := 1], 0);
      held := multiset{};
      new;
      assert Counted(s, anchor);
    }

    /** A fresh remote handle, with one object reference for the caller. It pins the anchor. */
    method AddRemote(id: nat, holder: nat)
      requires Inv(s) && s.anchor in s.handles && id !in s.handles
      modifies this`s
      ensures Inv(s) && s == NewRemote(old(s), id, holder)
      ensures s.handles[id] == Handle(holder, 1, 0, false, false, false) && s.callers == old(s).callers[id := 1]
      ensures s.handles[s.anchor] == old(s).handles[s.anchor].(ref := old(s).handles[s.anchor].ref + 1)
      ensures forall x | x in s.handles && x != id && x != s.anchor :: x in old(s).handles && s.handles[x] == old(s).handles[x]
    {
      NewRemoteKeeps(s, id, holder);
      s := NewRemote(s, id, holder);
    }

    method Ref(h: nat)
      requires Inv(s) && h in s.handles
      modifies this`s
      ensures Inv(s) && s == Get(old(s), h)
    {
      GetConserves(s, h);
      s := Get(s, h);
    }

    method Unref(h: nat)
      requires Inv(s) && h in s.handles && s.callers[h] > 0
      modifies this`s
      ensures Inv(s) && s == Put(old(s), h) && OnlyRefs(old(s), s) && UsesUp(old(s), s, h)
    {
      PutKeeps(s, h);
      PutOnlyRefs(s, h);
      PutUsesUp(s, s, h);
      s := Put(s, h);
    }

    /** Looks for another handle of the same holder. If there is one, the caller gets a reference to it;
        else the handle is linked and, if the node is being destroyed, tries once to join that. */
    method TrySplice(h: nat, active: bool, joins: bool) returns (conflict: bool)
      requires Inv(s) && h in s.handles && h != s.anchor && !s.released && s.handles[h].weak == 0
      modifies this`s
      ensures conflict <==> old(s).handles[h].holder in old(s).links
      ensures conflict ==> s == Get(old(s), old(s).links[old(s).handles[h].holder]) && Inv(s)
      ensures !conflict ==> s == Splice(old(s), h, old(s).destroyed && !old(s).handles[h].grouped && active, joins)
    {
      var x := s.handles[h];
      conflict := x.holder in s.links;
      if conflict {
        GetConserves(s, s.links[x.holder]);
        s := Get(s, s.links[x.holder]);
      } else {
        s := Splice(s, h, s.destroyed && !x.grouped && active, joins);
      }
    }

    /** Takes a weak reference, attaching the handle if it is the first one, or exchanges the handle for
        the one its holder has in the map already. That one is expected to have a single weak
        reference; `warned` tells that it has more. */
    method TakeWeak(h: nat, active: bool, joins: bool) returns (conflict: bool, warned: bool)
      requires Inv(s) && h in s.handles && s.callers[h] > 0
      requires !s.released && h != s.anchor ==> s.handles[s.anchor].weak > 0
      modifies this`s
      ensures Inv(s) && (conflict <==> Target(old(s), h) != h)
      ensures if conflict then Exchanged(old(s), s, h) else TookWeak(old(s), s, h)
      ensures warned <==> Warns(old(s), h)
      ensures Traded(old(s), s, h, Target(old(s), h)) && Marked(old(s), s, h, active, joins)
    {
      conflict, warned := false, false;
      ghost var s0 := s;
      if s.handles[h].weak == 0 && !s.released && h != s.anchor {
        conflict := TrySplice(h, active, joins);
        if conflict {
          ExchangeEffect(s0, h);
          ExchangeTrades(s0, h, active, joins);
          var other := s.links[s.handles[h].holder];
          s := Put(s, h);
          warned := s.handles[other].weak != 1;
          return;
        }
        AttachRemoteKeeps(s0, h, s0.destroyed && !s0.handles[h].grouped && active, joins);
        AttachEffect(s0, h, s0.destroyed && !s0.handles[h].grouped && active, joins);
        AttachMarks(s0, h, active, joins);
      } else {
        AttachEffect(s, h, false, false);
        AddWeakMarks(s, h, active, joins);
        AddWeakKeeps(s, h);
      }
      s := AddWeak(s, h);
    }

    method TakeStrong(h: nat)
      requires Inv(s) && h in s.handles && s.callers[h] > 0
      modifies this`s
      ensures Inv(s) && TookStrong(old(s), s, h) && Traded(old(s), s, h, h) && SameMarks(old(s), s)
    {
      AddStrongKeeps(s);
      AddStrongTrades(s, h);
      AddStrongSpares(s, h);
      s := AddStrong(s);
    }

    /** Takes a weak reference, and a strong one if asked, attaching the handle if it is the first. If
        the holder has a handle in the map already, that one is taken in its place. `active` tells that
        the holder can be acquired and `joins` that a late join would succeed. `warned` tells that
        the handle in the map had other than one weak reference. */
    method AcquireLocked(h: nat, strong: bool, active: bool, joins: bool) returns (r: nat, warned: bool)
      requires Inv(s) && h in s.handles && s.callers[h] > 0
      requires !s.released && h != s.anchor ==> s.handles[s.anchor].weak > 0
      modifies this`s
      ensures Inv(s) && r == Target(old(s), h) && Acquired(old(s), s, h, r, strong)
      ensures warned <==> Warns(old(s), h)
      ensures Traded(old(s), s, h, r) && Marked(old(s), s, h, active, joins)
      decreases s.handles[h].weak == 0
    {
      ghost var s0 := s;
      r := Target(s, h);
      var conflict;
      conflict, warned := TakeWeak(h, active, joins);
      ghost var t := s;
      if conflict {
        var again;
        r, again := AcquireLocked(r, strong, active, joins);
        warned := warned || again;
        ExchangedThenAcquired(s0, t, s, h, strong);
        AttachedTradesOnce(s0, t, s, h, r, active, joins);
      } else {
        if strong {
          TakeStrong(h);
        }
        TookThenStrong(s0, t, s, h, strong);
        TradedThenSame(s0, t, s, h, active, joins);
      }
    }

    /** Drops every remote from the map, with the references their links held. */
    method ClearMap()
      requires Conserved(s) && s.anchor in s.handles && s.callers[s.anchor] > 0
      modifies this`s
      ensures Conserved(s) && s == old(s).(handles := s.handles, callers := s.callers, links := map[])
      ensures s.anchor in s.handles && Spares(old(s), s) && SameWeak(old(s), s, {})
      ensures forall x | x in s.handles ::
                x in old(s).handles && s.handles[x] == old(s).handles[x].(ref := s.handles[x].ref)
    {
      while s.links != map[]
        invariant Conserved(s) && s == old(s).(handles := s.handles, callers := s.callers, links := s.links)
        invariant s.anchor in s.handles && Spares(old(s), s) && SameWeak(old(s), s, {})
        invariant forall x | x in s.handles ::
                    x in old(s).handles && s.handles[x] == old(s).handles[x].(ref := s.handles[x].ref)
        decreases |s.links|
      {
        var p :| p in s.links;
        DropLinkConserves(s, p);
        s := DropLink(s, p);
      }
    }

    /** Drops the last weak reference to the anchor, and with it every attachment to the node. */
    method DropAnchor()
      requires Inv(s) && !s.released && s.anchor in s.handles && s.handles[s.anchor].weak == 1
      modifies this`s
      ensures Inv(s) && s.released && !ReleaseQueued(s)
      ensures s == old(s).(handles := s.handles, callers := s.callers, links := map[], released := true)
      ensures s.anchor in s.handles && s.handles[s.anchor].weak == 0
      ensures SparesOthers(old(s), s, s.anchor, true)
      ensures SameWeak(old(s), s, {s.anchor})
    {
      SubWeakConserves(s, s.anchor);
      s := SubWeak(s, s.anchor);
      ReleaseAnchor();
    }

    /** The last weak reference to the anchor is gone: the node is released, for good. */
    method ReleaseAnchor()
      requires Conserved(s) && Grouped(s) && !s.released && s.anchor in s.handles && s.callers[s.anchor] > 0
      modifies this`s
      ensures Inv(s) && s.released && s.links == map[] && !ReleaseQueued(s)
      ensures s == old(s).(handles := s.handles, callers := s.callers, links := map[], released := true)
      ensures s.anchor in s.handles && Spares(old(s), s)
      ensures SameWeak(old(s), s, {})
    {
      ClearMap();
      FlushReleaseKeeps(s);
      FlushReleaseKeepsWeak(s);
      FlushReleaseSpares(s, s.anchor);
      FlushReleaseSparesAll(s);
      s := FlushRelease(s);
      ghost var t := s;
      s := s.(released := true);
      forall x | x in s.handles ensures Counted(s, x) { assert Counted(t, x); }
    }

    /** The first half of a release, up to the point where the releaser owns the reference that the last
        weak reference pinned. */
    method DropWeak(h: nat)
      requires Inv(s) && h in s.handles && s.handles[h].weak > 0
      modifies this`s
      ensures Inv(s) && Dropped(old(s), s, h, false)
    {
      if s.handles[h].weak > 1 || s.released {
        SubWeakKeeps(s, h);
        SubWeakDrops(s, h);
        s := SubWeak(s, h);
      } else if h == s.anchor {
        DropAnchor();
      } else {
        DetachDrops(s, h);
        s := DetachRemote(s, h);
      }
    }

    /** Drops a weak reference, and a strong one if asked. The last weak reference detaches the handle,
        or releases the node if it was the anchor's; unless something else holds the handle, it is freed.
        The last strong one queues the notification. No caller loses a handle it has a reference to. */
    method ReleaseLocked(h: nat, strong: bool)
      requires Inv(s) && h in s.handles && s.handles[h].weak > 0
      requires strong ==> s.strong > 0 && s.strongRefs > 0
      modifies this`s
      ensures Inv(s) && Released(old(s), s, h, 1, strong)
      ensures strong && !s.released && !s.destroyed ==> (ReleaseQueued(s) <==> s.strong == 0)
    {
      ghost var s0 := s;
      var last := s.handles[h].weak == 1;
      DropWeak(h);
      if strong {
        DropStrong(s0, s, h);
        s := SubStrong(s);
      }
      if last {
        DropLast(s0, s, h, strong);
        s := Put(s, h);
      } else {
        DropNotLast(s0, s, h, strong);
      }
    }

    /** Hands the notification node of every attached remote to the transaction, if its holder can be
        acquired. */
    method StageRemotes(active: set<nat>)
      requires Inv(s) && s.destroyed && StagedUpTo(s, {})
      modifies this`s
      ensures Inv(s) && s == old(s).(handles := s.handles) && StagedUpTo(s, active)
      ensures OnlyStaged(old(s), s)
    {
      var todo := s.links.Keys;
      while todo != {}
        invariant Inv(s) && s == old(s).(handles := s.handles) && OnlyStaged(old(s), s)
        invariant todo <= s.links.Keys && StagedUpTo(s, active - todo)
      {
        var p :| p in todo;
        if p in active {
          StagedKeeps(s, s.links[p]);
          StagedOne(s, p, active - todo);
          s := Staged(s, s.links[p]);
        }
        todo := todo - {p};
      }
    }

    /** Destroys the node: its own notification and that of every attached remote whose holder can be
        acquired go into the transaction. A second call changes nothing. Besides its release
        notification, which is taken back, something must hold the anchor. */
    method DestroyLocked(active: set<nat>) returns (staged: bool)
      requires Inv(s) && (s.destroyed || AnchorHeld(s))
      modifies this`s
      ensures Inv(s) && s.destroyed && (staged <==> !old(s).destroyed)
      ensures !staged ==> s == old(s)
      ensures s == old(s).(handles := s.handles, destroyed := true) && s.handles.Keys == old(s).handles.Keys
      ensures staged ==> s.anchor in s.handles && s.handles[s.anchor].pending
      ensures staged ==> StagedUpTo(s, active)
      ensures forall x | x in s.handles :: s.handles[x].weak == old(s).handles[x].weak
    {
      if s.destroyed { return false; }
      staged := true;
      MarkDestroyedKeeps(s);
      s := MarkDestroyed(s);
      StagedKeeps(s, s.anchor);
      s := Staged(s, s.anchor);
      StageRemotes(active);
    }

    /** Undoes the pin of a notification that was dequeued and handled, or of an identifier that was
        forgotten. If nothing else holds the handle, it is freed. */
    method DropPin(h: nat, notification: bool)
      requires Inv(s) && h in s.handles && Pinned(s.handles[h], notification)
      modifies this`s
      ensures Inv(s) && s == Unpin(old(s), h, notification) && Spares(old(s), s)
      ensures h in s.handles <==> old(s).handles[h].ref > 1
      ensures h in s.handles ==>
                var x, y := old(s).handles[h], s.handles[h];
                && (if notification then !y.pending && y.idLinked == x.idLinked else !y.idLinked && y.pending == x.pending)
                && y.weak == x.weak && y.grouped == x.grouped && s.callers[h] == old(s).callers[h]
      ensures OnlyRefs(Unpinned(old(s), h, notification), s) && SameWeak(old(s), s, {})
    {
      DropPinEffect(s, Unpinned(s, h, notification), h, notification);
      PutSelf(Unpinned(s, h, notification), h);
      s := Unpin(s, h, notification);
    }

    method Export(h: nat)
      requires Inv(s) && h in s.handles
      modifies this`s
      ensures Inv(s) && s == Identified(old(s), h)
      ensures s.handles[h].idLinked && s.handles[h].ref == old(s).handles[h].ref + One(!old(s).handles[h].idLinked)
      ensures s.handles.Keys == old(s).handles.Keys && s.callers == old(s).callers
    {
      IdentifiedKeeps(s, h);
      s := Identified(s, h);
    }

    // The atomic operations of the fast paths: each changes a count only if that was positive before
    // and stays so.

    method WeakUp(h: nat) returns (ok: bool)
      requires Inv(s) && h in s.handles
      modifies this`s
      ensures Inv(s) && ok == (old(s).handles[h].weak >= 1)
      ensures s == if ok then WeakTo(old(s), h, old(s).handles[h].weak + 1) else old(s)
    {
      ok := s.handles[h].weak >= 1;
      if ok {
        WeakToKeeps(s, h, s.handles[h].weak + 1);
        s := WeakTo(s, h, s.handles[h].weak + 1);
      }
    }

    method WeakDown(h: nat) returns (ok: bool)
      requires Inv(s) && h in s.handles
      modifies this`s
      ensures Inv(s) && ok == (old(s).handles[h].weak >= 2)
      ensures s == if ok then WeakTo(old(s), h, old(s).handles[h].weak - 1) else old(s)
    {
      ok := s.handles[h].weak >= 2;
      if ok {
        WeakToKeeps(s, h, s.handles[h].weak - 1);
        s := WeakTo(s, h, s.handles[h].weak - 1);
      }
    }

    /** `asked` tells whether the caller asked for the strong reference it gets. */
    method StrongUp(asked: bool) returns (ok: bool)
      requires Inv(s)
      modifies this`s
      ensures Inv(s) && ok == (old(s).strong >= 1)
      ensures s == if ok then StrongTo(old(s), old(s).strong + 1, old(s).strongRefs + One(asked)) else old(s)
    {
      ok := s.strong >= 1;
      if ok {
        StrongToKeeps(s, s.strong + 1, s.strongRefs + One(asked));
        s := StrongTo(s, s.strong + 1, s.strongRefs + One(asked));
      }
    }

    method StrongDown() returns (ok: bool)
      requires Inv(s) && s.strongRefs > 0
      modifies this`s
      ensures Inv(s) && ok == (old(s).strong >= 2)
      ensures s == if ok then StrongTo(old(s), old(s).strong - 1, old(s).strongRefs - 1) else old(s)
    {
      ok := s.strong >= 2;
      if ok {
        StrongToKeeps(s, s.strong - 1, s.strongRefs - 1);
        s := StrongTo(s, s.strong - 1, s.strongRefs - 1);
      }
    }

    // The subtractions of a release of many references, which leave both counts positive.

    method WeakSub(h: nat, k: nat)
      requires Inv(s) && h in s.handles && s.handles[h].weak > k
      modifies this`s
      ensures Inv(s) && s == WeakTo(old(s), h, old(s).handles[h].weak - k)
    {
      WeakToKeeps(s, h, s.handles[h].weak - k);
      s := WeakTo(s, h, s.handles[h].weak - k);
    }

    method StrongSub(k: nat)
      requires Inv(s) && s.strong > k && s.strongRefs >= k
      modifies this`s
      ensures Inv(s) && s == StrongTo(old(s), old(s).strong - k, old(s).strongRefs - k)
    {
      StrongToKeeps(s, s.strong - k, s.strongRefs - k);
      s := StrongTo(s, s.strong - k, s.strongRefs - k);
    }
  }

  lemma PutUsesUp(s: State, g: State, h: nat)
    requires Conserved(g) && h in g.handles && g.callers[h] > 0
    requires forall x | x in s.callers && s.callers[x] > 0 :: x in g.callers && g.callers[x] >= s.callers[x]
    ensures UsesUp(s, Put(g, h), h)
  {
    forall x | x in s.callers && s.callers[x] > One(x == h)
      ensures x in Put(g, h).callers && Put(g, h).callers[x] >= s.callers[x] - One(x == h)
    {
      PutSpares(g, h, x);
    }
  }

  /** A queued notification survives the dropping of references. */
  lemma QueuedIsPinned(s: State, s': State)
    requires OnlyRefs(s, s')
    ensures ReleaseQueued(s) ==> ReleaseQueued(s')
  {
  }

  lemma SubWeakDrops(s: State, h: nat)
    requires h in s.handles && h in s.callers && s.handles[h].weak > 0 && (s.handles[h].weak > 1 || s.released)
    ensures Dropped(s, SubWeak(s, h), h, false)
  {
  }

  lemma DetachDrops(s: State, h: nat)
    requires Detachable(s, h)
    ensures Inv(DetachRemote(s, h)) && Dropped(s, DetachRemote(s, h), h, false)
  {
    DetachRemoteEffect(s, h);
  }

  /** A strong reference goes with the weak one. */
  lemma DropStrong(s: State, t: State, h: nat)
    requires Inv(t) && h in s.handles && Dropped(s, t, h, false) && t.strong > 0 && t.strongRefs > 0
    ensures t.anchor in t.handles && Inv(SubStrong(t)) && Dropped(s, SubStrong(t), h, true)
    ensures t.strong == 1 && !t.released && !t.destroyed ==> ReleaseQueued(SubStrong(t))
  {
    SubStrongKeeps(t);
    SameWeakCompose(s, t, SubStrong(t), {h});
  }

  /** The end of a release: the reference that the last weak one pinned is dropped as well. */
  lemma DropLast(s: State, t: State, h: nat, strong: bool)
    requires Inv(t) && h in s.handles && Dropped(s, t, h, strong) && s.handles[h].weak == 1
    ensures Inv(Put(t, h)) && Released(s, Put(t, h), h, 1, strong) && (ReleaseQueued(t) ==> ReleaseQueued(Put(t, h)))
  {
    PutKeeps(t, h);
    PutOnlyRefs(t, h);
    PutBack(s, t, h);
    QueuedIsPinned(t, Put(t, h));
    OnlyRefsSameWeak(t, Put(t, h), {h});
    SameWeakCompose(s, t, Put(t, h), {h});
  }

  lemma DropNotLast(s: State, t: State, h: nat, strong: bool)
    requires h in s.handles && Dropped(s, t, h, strong) && s.handles[h].weak > 1
    ensures Released(s, t, h, 1, strong)
  {
  }

  /** Giving up a handle for another one of the same holder keeps the other one. */
  lemma DropConflict(s: State, h: nat, other: nat)
    requires Inv(s) && h in s.handles && h != s.anchor && s.callers[h] > 0 && !s.released && s.handles[h].weak == 0
    requires s.handles[h].holder in s.links && other == s.links[s.handles[h].holder]
    requires s.handles[s.anchor].weak > 0
    ensures var g := Get(s, other);
            && other != h && s.handles[other].weak > 0 && Inv(g) && g.callers[h] > 0
            && Inv(Put(g, h)) && OnlyRefs(g, Put(g, h))
            && other in Put(g, h).handles && Put(g, h).callers[other] == s.callers[other] + 1
            && s.anchor in Put(g, h).handles
  {
    var g := Get(s, other);
    GetConserves(s, other);
    assert Counted(s, h) && Counted(s, other);
    PutKeeps(g, h);
    PutOnlyRefs(g, h);
    PutSpares(g, h, other);
    assert Pins(g, s.anchor) > 0;
  }

  lemma ExchangeEffect(s: State, h: nat)
    requires Inv(s) && h in s.handles && h != s.anchor && s.callers[h] > 0 && !s.released && s.handles[h].weak == 0
    requires s.handles[h].holder in s.links && s.handles[s.anchor].weak > 0
    ensures var g := Get(s, s.links[s.handles[h].holder]);
            Inv(g) && g.callers[h] > 0 && Inv(Put(g, h)) && Exchanged(s, Put(g, h), h)
  {
    var other := s.links[s.handles[h].holder];
    DropConflict(s, h, other);
    PutUsesUp(s, Get(s, other), h);
    ExchangedBy(s, Get(s, other), Put(Get(s, other), h), h);
  }

  lemma ExchangedBy(s: State, g: State, s': State, h: nat)
    requires h in s.handles && LinksOk(s) && Target(s, h) != h
    requires var r := Target(s, h);
             && r in s.handles && r in s.callers && g == Get(s, r) && OnlyRefs(g, s') && UsesUp(s, s', h)
             && r in s'.handles && r in s'.callers && s'.callers[r] == s.callers[r] + 1 && s.handles[r].weak > 0
    requires s.anchor in s.handles && s.anchor in s'.handles && s.handles[s.anchor].weak > 0
    ensures Exchanged(s, s', h)
  {
    OnlyRefsSameWeak(g, s', {});
    assert SameWeak(s, g, {});
    SameWeakCompose(s, g, s', {});
  }

  lemma ExchangedThenAcquired(s: State, t: State, s': State, h: nat, strong: bool)
    requires h in s.handles && Target(s, h) != h && Exchanged(s, t, h) && t.handles.Keys == t.callers.Keys
    requires Acquired(t, s', Target(s, h), Target(s, h), strong)
    ensures Acquired(s, s', h, Target(s, h), strong)
  {
  }

  lemma TookThenStrong(s: State, t: State, s': State, h: nat, strong: bool)
    requires h in s.handles && h in s.callers && s.callers[h] > 0 && TookWeak(s, t, h)
    requires if strong then TookStrong(t, s', h) else s' == t
    ensures Acquired(s, s', h, h, strong)
  {
  }

  /** The weak reference of an attached, or newly attached, handle. */
  lemma AttachEffect(s: State, h: nat, tries: bool, joins: bool)
    requires h in s.handles
    ensures s.released || h == s.anchor || Linked(s, h) ==> TookWeak(s, AddWeak(s, h), h)
    ensures TookWeak(s, AddWeak(Splice(s, h, tries, joins), h), h)
  {
  }

  // ----- what becomes of references and notifications in an acquisition

  /** Giving up a handle for another one drops exactly the caller's reference to it. */
  lemma ExchangeTrades(s: State, h: nat, active: bool, joins: bool)
    requires Inv(s) && h in s.handles && h != s.anchor && s.callers[h] > 0 && !s.released && s.handles[h].weak == 0
    requires s.handles[h].holder in s.links && s.handles[s.anchor].weak > 0
    ensures var r := s.links[s.handles[h].holder];
            var g := Get(s, r);
            && r in s.handles && Inv(g) && g.callers[h] > 0
            && Traded(s, Put(g, h), h, r) && Marked(s, Put(g, h), h, active, joins)
  {
    var r := s.links[s.handles[h].holder];
    var g := Get(s, r);
    DropConflict(s, h, r);
    assert Counted(g, h);
    PutOnlyRefs(g, h);
    if g.handles[h].ref == 1 {
      FreeTrades(g, h);
    }
    ExchangeMarks(s, g, Put(g, h), h, r, active, joins);
  }

  lemma ExchangeMarks(s: State, g: State, s': State, h: nat, r: nat, active: bool, joins: bool)
    requires h in s.handles && r in s.handles && r != h && s.callers.Keys == s.handles.Keys && g == Get(s, r) && OnlyRefs(g, s')
    requires s.callers[h] > 0 && g.handles[h].ref > 0
    requires if g.handles[h].ref > 1 then s' == Dec(g, h)
             else s'.handles.Keys == g.handles.Keys - {h} && s'.callers == g.callers - {h}
    requires !Attaches(s, h)
    ensures Traded(s, s', h, r) && Marked(s, s', h, active, joins)
  {
  }

  /** A remote freed by its last reference takes nothing with it from an attached anchor. */
  lemma FreeTrades(g: State, h: nat)
    requires Conserved(g) && h in g.handles && h != g.anchor && g.callers[h] > 0 && g.handles[h].ref == 1
    requires g.anchor in g.handles && g.handles[g.anchor].weak > 0
    ensures Put(g, h).handles.Keys == g.handles.Keys - {h} && Put(g, h).callers == g.callers - {h}
  {
    FreeRemoteConserves(g, h);
    var f := FreeRemote(g, h);
    AnchorStays(f);
    PutOnlyRefs(f, g.anchor);
    FreedThenDropped(g, h);
  }

  lemma AnchorStays(f: State)
    requires Conserved(f) && f.anchor in f.handles && f.handles[f.anchor].weak > 0 && f.callers[f.anchor] > 0
    ensures f.handles[f.anchor].ref > 1
  {
    assert Counted(f, f.anchor) && Pins(f, f.anchor) > 0;
  }

  lemma FreedThenDropped(g: State, h: nat)
    requires g.callers.Keys == g.handles.Keys && h in g.handles && g.anchor in g.handles && h != g.anchor && g.handles[g.anchor].ref > 0
    ensures var f := Dec(FreeRemote(g, h), g.anchor);
            f.handles.Keys == g.handles.Keys - {h} && f.callers == g.callers - {h}
  {
  }

  lemma AttachMarks(s: State, h: nat, active: bool, joins: bool)
    requires h in s.handles && Attaches(s, h) && s.callers.Keys == s.handles.Keys
    ensures var s' := AddWeak(Splice(s, h, s.destroyed && !s.handles[h].grouped && active, joins), h);
            Traded(s, s', h, h) && Marked(s, s', h, active, joins)
  {
  }

  lemma AddWeakMarks(s: State, h: nat, active: bool, joins: bool)
    requires h in s.handles && !Attaches(s, h) && s.callers.Keys == s.handles.Keys
    ensures Traded(s, AddWeak(s, h), h, h) && Marked(s, AddWeak(s, h), h, active, joins)
  {
  }

  ghost predicate SameMarks(s: State, s': State) {
    forall x | x in s.handles && x in s'.handles && x != s.anchor ::
      && s'.handles[x].idLinked == s.handles[x].idLinked && s'.handles[x].grouped == s.handles[x].grouped
      && s'.handles[x].pending == s.handles[x].pending
  }

  /** Taking the release notification back costs nobody anything while somebody has a reference. */
  lemma FlushReleaseTrades(s: State, h: nat)
    requires Conserved(s) && s.anchor in s.handles && h in s.handles && s.callers[h] > 0
    ensures Traded(s, FlushRelease(s), h, h) && SameMarks(s, FlushRelease(s))
  {
    if !(s.released || s.destroyed || !s.handles[s.anchor].pending) {
      UnqueuedConserves(s);
      var u := Unqueued(s);
      assert Counted(u, s.anchor) && Counted(u, h);
      if h != s.anchor { CardinalityAtLeast(s.handles.Keys, {h, s.anchor}); }
      PutOnlyRefs(u, s.anchor);
      assert Dec(u, s.anchor).callers == s.callers;
    }
  }

  lemma AddStrongTrades(s: State, h: nat)
    requires Conserved(s) && s.anchor in s.handles && h in s.handles && s.callers[h] > 0
    ensures Traded(s, AddStrong(s), h, h) && SameMarks(s, AddStrong(s))
  {
    MoreStrongConserves(s);
    if s.strong == 0 && !s.released { FlushReleaseTrades(MoreStrong(s), h); }
  }

  lemma TradedThenSame(s: State, t: State, s': State, h: nat, active: bool, joins: bool)
    requires h in s.handles && h in t.handles && t.anchor == s.anchor
    requires Traded(s, t, h, h) && Marked(s, t, h, active, joins)
    requires s' == t || (Traded(t, s', h, h) && SameMarks(t, s'))
    ensures Traded(s, s', h, h) && Marked(s, s', h, active, joins)
  {
  }

  lemma AttachedTradesOnce(s: State, t: State, s': State, h: nat, r: nat, active: bool, joins: bool)
    requires h in s.handles && r in s.handles && r in t.handles && r != h && t.anchor == s.anchor
    requires Traded(s, t, h, r) && Marked(s, t, h, active, joins) && !Attaches(t, r)
    requires Traded(t, s', r, r) && Marked(t, s', r, active, joins) && !Attaches(s, h)
    ensures Traded(s, s', h, r) && Marked(s, s', h, active, joins)
  {
  }

  /** The undoing of a pin, and of the reference it stands for. */
  lemma DropPinEffect(s: State, u: State, h: nat, notification: bool)
    requires Inv(s) && h in s.handles && Pinned(s.handles[h], notification) && u == Unpinned(s, h, notification)
    ensures Inv(u) && Inv(Put(u, h)) && Spares(s, Put(u, h)) && SameWeak(s, Put(u, h), {})
    ensures OnlyRefs(u, Put(u, h))
  {
    UnpinnedKeeps(s, h, notification);
    PutKeeps(u, h);
    PutOnlyRefs(u, h);
    PutBack(s, u, h);
    OnlyRefsSameWeak(u, Put(u, h), {});
    assert SameWeak(s, u, {});
    SameWeakCompose(s, u, Put(u, h), {});
  }
}
