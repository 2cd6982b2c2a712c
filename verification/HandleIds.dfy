/** The identifiers of a peer's handles: chosen by the user for its own nodes, by the kernel otherwise. */
module HandleIds {
  import opened Common

  const INVALID: nat := 0xffff_ffff_ffff_ffff
  const MANAGED: nat := 1
  const REMOTE: nat := 2

  /** How many identifiers the kernel can assign before the counter no longer fits. */
  const LIMIT: nat := 0x2000_0000_0000_0000

  /** The identifier the kernel makes of a counter value, in 64-bit arithmetic. */
  function KernelId(n: nat, remote: bool): nat {
    n * 8 % 0x1_0000_0000_0000_0000 + MANAGED + (if remote then REMOTE else 0)
  }

  /** Neither the managed nor the remote flag is set: the user may choose such an identifier. */
  predicate UserChosen(id: nat) {
    id % 4 == 0
  }

  /** Two counter values give the same identifier exactly if they differ by a multiple of the limit. */
  lemma KernelIdsRepeat(m: nat, n: nat, r: bool, q: bool)
    ensures KernelId(m, r) == KernelId(n, q) <==> m % LIMIT == n % LIMIT && r == q
  {
    assert m * 8 % 0x1_0000_0000_0000_0000 == (m % LIMIT) * 8 by { ShiftWraps(m); }
    assert n * 8 % 0x1_0000_0000_0000_0000 == (n % LIMIT) * 8 by { ShiftWraps(n); }
  }

  lemma ShiftWraps(n: nat)
    ensures n * 8 % 0x1_0000_0000_0000_0000 == (n % LIMIT) * 8
  {
    var k, r := n / LIMIT, n % LIMIT;
    assert n * 8 == k * 0x1_0000_0000_0000_0000 + r * 8;
  }

  /** A kernel identifier is never one a user could choose, and never the invalid one. */
  lemma KernelIdIsManaged(n: nat, remote: bool)
    ensures !UserChosen(KernelId(n, remote)) && KernelId(n, remote) < INVALID
  {
    ShiftWraps(n);
  }

  // The two lowest bits of an identifier.

  predicate HasManaged(id: nat) { id % 4 == 1 || id % 4 == 3 }
  predicate HasRemote(id: nat) { id % 4 == 2 || id % 4 == 3 }

  /** The user may choose an identifier exactly if neither flag bit is set. */
  lemma UserChosenMeans(id: nat)
    ensures UserChosen(id) <==> !HasManaged(id) && !HasRemote(id)
  {
  }

  /** A kernel identifier is the counter above three flag bits, with the managed flag, and with the remote
      flag exactly for remote handles. */
  lemma KernelIdFlags(n: nat, remote: bool)
    ensures var id := KernelId(n, remote);
            HasManaged(id) && (HasRemote(id) <==> remote) && 0 <= id - (n % LIMIT) * 8 < 4
  {
    ShiftWraps(n);
    FlagsOfSum(n % LIMIT, if remote then 3 else 1);
  }

  lemma FlagsOfSum(k: nat, f: nat)
    requires f < 4
    ensures (k * 8 + f) % 4 == f
  {
    var q, r := (k * 8 + f) / 4, (k * 8 + f) % 4;
    assert 4 * (2 * k - q) == r - f;
  }

  ghost predicate KernelMade(id: nat, counter: nat) {
    exists n: nat, r: bool :: 0 < n <= counter && id == KernelId(n, r)
  }

  class Namespace {
    var counter: nat
    var table: map<nat, nat>
    var ids: map<nat, nat>
    var users: map<nat, nat>
    var anchors: set<nat>
    ghost var issued: set<nat>

    /** Every handle in the table has the identifier it is found under; no two handles share one; and
        the kernel's identifiers are those of counter values up to the current one. */
    ghost predicate Valid()
      reads this
    {
      && counter < LIMIT
      && (forall id | id in table :: table[id] in ids && ids[table[id]] == id)
      && (forall g, h | g in ids && h in ids && ids[g] == ids[h] :: g == h)
      && (forall h | h in ids && UserChosen(ids[h]) :: ids[h] in table && table[ids[h]] == h)
      && (forall h | h in ids && !UserChosen(ids[h]) :: ids[h] in issued)
      && (forall id {:trigger KernelMade(id, counter)} | id in issued :: KernelMade(id, counter))
    }

    constructor ()
      ensures Valid() && table == map[] && ids == map[] && issued == {}
    {
      counter, table, ids, users, anchors, issued := 0, map[], map[], map[], {}, {};
    }

    /** The table never holds the invalid identifier. */
    lemma NeverInvalid(h: nat)
      requires Valid() && h in ids
      ensures ids[h] != INVALID
    {
      if !UserChosen(ids[h]) {
        assert KernelMade(ids[h], counter);
        var n: nat, r: bool :| 0 < n <= counter && ids[h] == KernelId(n, r);
        KernelIdIsManaged(n, r);
      }
    }

    /** What the kernel assigned is never what a user could choose. */
    lemma IssuedIsManaged(id: nat)
      requires Valid() && id in issued
      ensures !UserChosen(id)
    {
      assert KernelMade(id, counter);
      var n: nat, r: bool :| 0 < n <= counter && id == KernelId(n, r);
      KernelIdIsManaged(n, r);
    }

    /** Finds a handle by identifier. An unknown one makes a new anchor, unless only the kernel could
        have assigned it. `spare` is the handle allocated in that case. */
    method Import(id: nat, spare: nat) returns (h: Option<nat>, isNew: bool)
      requires Valid() && (id !in table && UserChosen(id) ==> spare !in ids)
      modifies this
      ensures Valid() && counter == old(counter) && issued == old(issued) && users == old(users)
      ensures id in old(table) ==> h == Some(old(table)[id]) && !isNew
      ensures id !in old(table) && !UserChosen(id) ==> h == None && !isNew
      ensures id !in old(table) && UserChosen(id) ==> h == Some(spare) && isNew
      ensures if isNew
              then table == old(table)[id := spare] && ids == old(ids)[spare := id] && anchors == old(anchors) + {spare}
              else table == old(table) && ids == old(ids) && anchors == old(anchors)
    {
      if id in table { return Some(table[id]), false; }
      if id % 4 != 0 { return None, false; }
      table, ids, anchors := table[id := spare], ids[spare := id], anchors + {spare};
      return Some(spare), true;
    }

    /** The identifier of a handle, a new one if it has none. A new one was never assigned before, and
        is neither invalid nor one a user could choose. */
    method Identify(h: nat) returns (id: nat)
      requires Valid() && (h !in ids ==> counter + 1 < LIMIT)
      modifies this
      ensures Valid() && table == old(table) && anchors == old(anchors) && users == old(users)
      ensures h in ids && id == ids[h] && ids == old(ids)[h := id]
      ensures h in old(ids) ==> unchanged(this)
      ensures h !in old(ids) ==> id !in old(issued) && issued == old(issued) + {id} && !UserChosen(id) && id != INVALID
      ensures h !in old(ids) ==> HasManaged(id) && (HasRemote(id) <==> h !in anchors)
    {
      if h !in ids {
        counter := counter + 1;
        id := KernelId(counter, h !in anchors);
        KernelIdFlags(counter, h !in anchors);
        KernelIdIsManaged(counter, h !in anchors);
        forall n: nat, r: bool | 0 < n < counter ensures KernelId(n, r) != id {
          KernelIdsRepeat(n, counter, r, h !in anchors);
        }
        assert KernelMade(id, counter);
        forall x | x in issued ensures x != id && KernelMade(x, counter) {
          assert KernelMade(x, counter - 1);
          var n: nat, r: bool :| 0 < n <= counter - 1 && x == KernelId(n, r);
        }
        ids, issued := ids[h := id], issued + {id};
      }
      id := ids[h];
    }

    /** Puts a handle into the table, under the identifier it has or gets. */
    method Export(h: nat) returns (id: nat)
      requires Valid() && (h !in ids ==> counter + 1 < LIMIT)
      modifies this
      ensures Valid() && h in ids && id == ids[h] && ids == old(ids)[h := id]
      ensures if h in old(ids) then id == old(ids)[h] else !UserChosen(id) && id !in old(issued)
      ensures id in table && table[id] == h && table == old(table)[id := h]
      ensures id in old(table) ==> old(table)[id] == h
      ensures anchors == old(anchors) && users == old(users)
      ensures issued == old(issued) + (if h in old(ids) then {} else {id})
    {
      id := Identify(h);
      if id !in table {
        table := table[id := h];
      }
    }

    predicate Public(h: nat)
      reads this
    {
      h in users && users[h] > 0
    }

    /** Takes a handle out of the table and clears its identifier, unless user space still holds it. */
    method Forget(h: nat)
      requires Valid()
      modifies this
      ensures Valid() && counter == old(counter) && issued == old(issued)
      ensures if old(!Public(h) && h in ids && ids[h] in table)
              then table == old(table) - {old(ids)[h]} && ids == old(ids) - {h}
              else table == old(table) && ids == old(ids)
    {
      if Public(h) || h !in ids || ids[h] !in table { return; }
      table, ids := table - {ids[h]}, ids - {h};
    }
  }

  /** The handle can be found under its identifier. */
  ghost predicate Exported(table: map<nat, nat>, ids: map<nat, nat>, h: nat) {
    h in ids && ids[h] in table && table[ids[h]] == h
  }

  /** Nothing has this identifier. */
  ghost predicate Unused(ids: map<nat, nat>, id: nat) {
    forall h | h in ids :: ids[h] != id
  }

  /** One operation on the namespace, on any handle; `keep` it forgets only while that is public, which
      does nothing. `id` is the identifier it assigned, if it did. An identifier that was assigned once
      and is no longer used does not come back. */
  method AnyStep(ns: Namespace, keep: Option<nat>) returns (id: Option<nat>)
    requires ns.Valid()
    modifies ns
    ensures ns.Valid()
    ensures keep.Some? && old(Exported(ns.table, ns.ids, keep.value)) ==>
              Exported(ns.table, ns.ids, keep.value) && ns.ids[keep.value] == old(ns.ids)[keep.value]
    ensures ns.issued == old(ns.issued) + (if id.Some? then {id.value} else {})
    ensures id.Some? ==> id.value !in old(ns.issued)
    ensures forall x | x in old(ns.issued) && old(Unused(ns.ids, x)) :: Unused(ns.ids, x)
  {
    var g: nat, x: nat, n: nat := *, *, *;
    id := None;
    forall y | y in ns.issued ensures !UserChosen(y) { ns.IssuedIsManaged(y); }
    if
    case g !in ns.ids => var found, isNew := ns.Import(x, g);
    case g in ns.ids || ns.counter + 1 < LIMIT =>
      var assigns := g !in ns.ids;
      var y := ns.Identify(g);
      id := if assigns then Some(y) else None;
    case g in ns.ids || ns.counter + 1 < LIMIT =>
      var assigns := g !in ns.ids;
      var y := ns.Export(g);
      id := if assigns then Some(y) else None;
    case keep != Some(g) || ns.Public(g) => ns.Forget(g);
    case true => ns.users := ns.users[g := n];
  }

  /** The identifiers in `made` were assigned since, each of them for the first time. */
  ghost predicate MadeOnce(before: set<nat>, after: set<nat>, made: seq<nat>) {
    && (forall i, j | 0 <= i < j < |made| :: made[i] != made[j])
    && after == before + (set x | x in made) && before !! (set x | x in made)
  }

  lemma MadeOneMore(before: set<nat>, after: set<nat>, made: seq<nat>, id: nat)
    requires MadeOnce(before, after, made) && id !in after
    ensures MadeOnce(before, after + {id}, made + [id])
  {
    assert (set x | x in made + [id]) == (set x | x in made) + {id};
  }

  /** Whatever happens to the namespace in between, an exported identifier leads back to its handle as
      long as that is not forgotten; and no identifier is ever assigned twice. */
  method ImportAfterExport(ns: Namespace, h: nat, steps: nat) returns (back: Option<nat>, made: seq<nat>)
    requires ns.Valid() && (h !in ns.ids ==> ns.counter + 1 < LIMIT)
    modifies ns
    ensures ns.Valid() && back == Some(h)
    ensures MadeOnce(old(ns.issued), ns.issued, made)
  {
    var known := h in ns.ids;
    var id := ns.Export(h);
    made := if known then [] else [id];
    assert MadeOnce(old(ns.issued), ns.issued, made);
    for i := 0 to steps
      invariant ns.Valid() && Exported(ns.table, ns.ids, h) && ns.ids[h] == id
      invariant MadeOnce(old(ns.issued), ns.issued, made)
    {
      ghost var issued := ns.issued;
      var y := AnyStep(ns, Some(h));
      if y.Some? {
        MadeOneMore(old(ns.issued), issued, made, y.value);
        made := made + [y.value];
      }
    }
    var isNew;
    back, isNew := ns.Import(id, h);
  }

  /** Once forgotten, an identifier of the kernel leads nowhere, whatever happens afterwards. */
  method ImportAfterForget(ns: Namespace, h: nat, steps: nat, spare: nat) returns (gone: Option<nat>)
    requires ns.Valid() && Exported(ns.table, ns.ids, h) && !ns.Public(h) && !UserChosen(ns.ids[h])
    modifies ns
    ensures ns.Valid() && gone == None
  {
    var id := ns.ids[h];
    ns.Forget(h);
    for i := 0 to steps
      invariant ns.Valid() && id in ns.issued && Unused(ns.ids, id)
    {
      var y := AnyStep(ns, None);
    }
    var isNew;
    gone, isNew := ns.Import(id, spare);
  }
}
