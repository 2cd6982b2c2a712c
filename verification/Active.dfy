/** Active references: one 32-bit counter that encodes both a life cycle and a reference count, changed
    by any number of threads with atomic operations. Each atomic operation is one action. */
module Active {
  const INT_MIN := -0x8000_0000
  const INT_MAX := 0x7fff_ffff

  const BIAS := INT_MIN + 5
  const RELEASE_DIRECT := BIAS - 1
  const RELEASE := BIAS - 2
  const DONE := BIAS - 3
  const NEW := BIAS - 4

  /** The number of references the encoding has room for. */
  const LIMIT := INT_MAX - 5

  /** A sum as the 32-bit counter holds it. */
  function Wrap(x: int): int {
    (x - INT_MIN) % 0x1_0000_0000 + INT_MIN
  }

  predicate IsNew(count: int) { count == NEW }
  predicate IsActive(count: int) { count >= 0 }
  predicate IsDeactivated(count: int) { NEW < count < 0 }
  predicate IsDrained(count: int) { NEW < count <= BIAS }

  /** Where a thread is inside a deactivate or cleanup call. */
  datatype Pc =
    | Idle
    | DeactivateRead
    | DeactivateSwap(v: int)
    | CleanupDirect
    | CleanupBias
    | Cleaning
    | Waiting

  /** The counter and the threads; the other fields record what callers were told: that an activate
      or a deactivate call returned true, how many references are held, and how often the cleanup
      callback was started and finished. */
  datatype State = State(
    count: int,
    threads: map<nat, Pc>,
    activated: bool,
    deactivated: bool,
    refs: nat,
    cleanups: nat,
    finished: nat)

  datatype Action =
    | Activate
    | Acquire
    | Release
    | Deactivate(t: nat)
    | DeactivateLoad(t: nat)
    | DeactivateCas(t: nat)
    | Cleanup(t: nat)
    | CleanupCas(t: nat)
    | CleanupFinish(t: nat)
    | CleanupWait(t: nat, skip: bool)

  const Init := State(NEW, map[], false, false, 0, 0, 0)

  function At(s: State, t: nat): Pc {
    if t in s.threads then s.threads[t] else Idle
  }

  function Goto(s: State, t: nat, pc: Pc): State {
    s.(threads := s.threads[t := pc])
  }

  /** Any call at any time, but a release needs a held reference, and callers keep to the limit. A
      cleanup call that lost waits for the winner, unless it skips the wait. */
  predicate Enabled(s: State, act: Action) {
    match act
    case Activate => true
    case Acquire => s.refs < LIMIT
    case Release => s.refs > 0
    case Deactivate(t) => At(s, t).Idle?
    case DeactivateLoad(t) => At(s, t).DeactivateRead?
    case DeactivateCas(t) => At(s, t).DeactivateSwap?
    case Cleanup(t) => At(s, t).Idle?
    case CleanupCas(t) => At(s, t).CleanupDirect? || At(s, t).CleanupBias?
    case CleanupFinish(t) => At(s, t).Cleaning?
    case CleanupWait(t, skip) => At(s, t).Waiting? && (skip || s.count == DONE)
  }

  /** The loop of deactivate continues with the value just read, or gives up on a negative one. */
  function Retry(s: State, t: nat, v: int): State {
    Goto(s, t, if v >= 0 then DeactivateSwap(v) else Idle)
  }

  function StartCleaning(s: State, t: nat): State {
    Goto(s.(count := RELEASE, cleanups := s.cleanups + 1), t, Cleaning)
  }

  function Apply(s: State, act: Action): State
    requires Enabled(s, act)
  {
    match act
    case Activate => if s.count == NEW then s.(count := 0, activated := true) else s
    case Acquire => if s.count >= 0 then s.(count := Wrap(s.count + 1), refs := s.refs + 1) else s
    case Release => s.(count := Wrap(s.count - 1), refs := s.refs - 1)
    case Deactivate(t) =>
      if s.count == NEW then s.(count := RELEASE_DIRECT, deactivated := true) else Goto(s, t, DeactivateRead)
    case DeactivateLoad(t) => Retry(s, t, s.count)
    case DeactivateCas(t) =>
      if s.count == At(s, t).v
      then Goto(s.(count := Wrap(s.count + BIAS), deactivated := true), t, Idle)
      else Retry(s, t, s.count)
    case Cleanup(t) => if IsDrained(s.count) then Goto(s, t, CleanupDirect) else s
    case CleanupCas(t) =>
      if At(s, t).CleanupDirect?
      then if s.count == RELEASE_DIRECT then StartCleaning(s, t) else Goto(s, t, CleanupBias)
      else if s.count == BIAS then StartCleaning(s, t) else Goto(s, t, Waiting)
    case CleanupFinish(t) => Goto(s.(count := DONE, finished := s.finished + 1), t, Idle)
    case CleanupWait(t, _) => Goto(s, t, Idle)
  }

  /** What the counter must read, given what callers were told. */
  function Encode(s: State): int {
    if s.finished > 0 then DONE
    else if s.cleanups > 0 then RELEASE
    else if s.deactivated then (if s.activated then BIAS + s.refs else RELEASE_DIRECT)
    else if s.activated then s.refs
    else NEW
  }

  ghost predicate Inv(s: State) {
    && s.count == Encode(s)
    && s.refs <= LIMIT
    && (!s.activated || s.cleanups > 0 ==> s.refs == 0)
    && s.finished <= s.cleanups <= 1
    && (s.cleanups > 0 ==> s.deactivated)
    && (forall t | t in s.threads && s.threads[t].DeactivateSwap? :: s.threads[t].v >= 0)
    && (forall t | t in s.threads && s.threads[t].Cleaning? :: s.cleanups == 1 && s.finished == 0)
    && (forall t, u | t in s.threads && u in s.threads && s.threads[t].Cleaning? && s.threads[u].Cleaning? :: t == u)
    && (forall t | t in s.threads && (s.threads[t].DeactivateRead? || s.threads[t].DeactivateSwap?) ::
          s.activated || s.deactivated)
    && (forall t | t in s.threads && !s.threads[t].Idle? && !s.threads[t].DeactivateRead? && !s.threads[t].DeactivateSwap? ::
          s.deactivated && s.refs == 0)
    && (forall t | t in s.threads && s.threads[t].CleanupBias? :: s.activated || s.cleanups > 0)
    && (forall t | t in s.threads && s.threads[t].Waiting? :: s.cleanups > 0)
    && (s.cleanups > s.finished ==> exists t :: t in s.threads && s.threads[t].Cleaning?)
  }

  /** Deactivating subtracts enough to make the counter negative exactly if it is within the limit. */
  lemma BiasFits(v: nat)
    requires v <= INT_MAX
    ensures Wrap(v + BIAS) < 0 <==> v <= LIMIT
    ensures v <= LIMIT ==> Wrap(v + BIAS) == v + BIAS && IsDeactivated(Wrap(v + BIAS))
  {
  }

  lemma WrapIsExact(x: int)
    requires INT_MIN <= x <= INT_MAX
    ensures Wrap(x) == x
  {
  }

  lemma ReferenceKeeps(s: State, act: Action)
    requires Inv(s) && Enabled(s, act) && (act.Activate? || act.Acquire? || act.Release?)
    ensures Inv(Apply(s, act))
  {
    if act.Acquire? && s.count >= 0 { WrapIsExact(s.count + 1); }
    if act.Release? { WrapIsExact(s.count - 1); }
  }

  lemma DeactivateKeeps(s: State, act: Action)
    requires Inv(s) && Enabled(s, act) && (act.Deactivate? || act.DeactivateLoad? || act.DeactivateCas?)
    ensures Inv(Apply(s, act))
  {
    if act.DeactivateCas? && s.count == At(s, act.t).v { BiasFits(s.count); }
    if s.cleanups > s.finished {
      var t :| t in s.threads && s.threads[t].Cleaning?;
      assert Apply(s, act).threads[t].Cleaning?;
    }
  }

  lemma CleanupKeeps(s: State, act: Action)
    requires Inv(s) && Enabled(s, act)
    requires act.Cleanup? || act.CleanupCas? || act.CleanupFinish? || act.CleanupWait?
    ensures Inv(Apply(s, act))
  {
    var s' := Apply(s, act);
    if s'.cleanups > s'.finished {
      if s.cleanups == s.finished {
        assert s'.threads[act.t].Cleaning?;
      } else {
        var t :| t in s.threads && s.threads[t].Cleaning?;
        assert t in s'.threads && s'.threads[t].Cleaning?;
      }
    }
  }

  lemma StepKeeps(s: State, act: Action)
    requires Inv(s) && Enabled(s, act)
    ensures Inv(Apply(s, act))
  {
    if act.Activate? || act.Acquire? || act.Release? {
      ReferenceKeeps(s, act);
    } else if act.Deactivate? || act.DeactivateLoad? || act.DeactivateCas? {
      DeactivateKeeps(s, act);
    } else {
      CleanupKeeps(s, act);
    }
  }

  // ----- over whole runs

  ghost predicate Run(states: seq<State>, acts: seq<Action>) {
    && |states| == |acts| + 1 && states[0] == Init
    && forall i | 0 <= i < |acts| :: Enabled(states[i], acts[i]) && states[i + 1] == Apply(states[i], acts[i])
  }

  lemma {:induction false} RunInv(states: seq<State>, acts: seq<Action>, i: nat)
    requires Run(states, acts) && i <= |acts|
    ensures Inv(states[i])
  {
    if i > 0 {
      RunInv(states, acts, i - 1);
      StepKeeps(states[i - 1], acts[i - 1]);
    }
  }

  /** The counter always decodes to the life cycle state and the true number of references. */
  lemma CounterDecodes(states: seq<State>, acts: seq<Action>, i: nat)
    requires Run(states, acts) && i <= |acts|
    ensures var s := states[i];
            && s.count == Encode(s)
            && (IsNew(s.count) <==> !s.activated && !s.deactivated)
            && (IsActive(s.count) <==> s.activated && !s.deactivated)
            && (IsDeactivated(s.count) <==> s.deactivated)
            && (IsDrained(s.count) <==> s.deactivated && s.refs == 0)
  {
    RunInv(states, acts, i);
  }

  /** A later state never undoes an activation, a deactivation or a cleanup, and after a deactivation
      references are only given back. */
  ghost predicate Later(s: State, s': State) {
    && (s.activated ==> s'.activated) && (s.deactivated ==> s'.deactivated && s'.refs <= s.refs)
    && s.cleanups <= s'.cleanups && s.finished <= s'.finished
    && (s.deactivated ==> s'.activated == s.activated)
  }

  lemma StepLater(s: State, act: Action)
    requires Inv(s) && Enabled(s, act)
    ensures Later(s, Apply(s, act))
  {
  }

  lemma {:induction false} RunLater(states: seq<State>, acts: seq<Action>, i: nat, j: nat)
    requires Run(states, acts) && i <= j <= |acts|
    ensures Later(states[i], states[j])
    decreases j - i
  {
    if i < j {
      RunLater(states, acts, i, j - 1);
      RunInv(states, acts, j - 1);
      StepLater(states[j - 1], acts[j - 1]);
    }
  }

  /** An acquire gets a reference exactly between the activation and the deactivation: it fails before
      the first `activate` returned true, and for good once any `deactivate` returned true. */
  lemma AcquireOnlyWhileActive(states: seq<State>, acts: seq<Action>, i: nat, j: nat)
    requires Run(states, acts) && i <= j < |acts| && acts[j].Acquire?
    ensures states[j + 1].refs == states[j].refs + 1 <==> states[j].activated && !states[j].deactivated
    ensures states[i].deactivated ==> states[j + 1] == states[j]
  {
    CounterDecodes(states, acts, j);
    RunLater(states, acts, i, j);
  }

  /** The callback is started at most once, after deactivation, and from then on nobody holds a
      reference. */
  lemma CleanupRunsOnce(states: seq<State>, acts: seq<Action>, i: nat, j: nat)
    requires Run(states, acts) && i <= j <= |acts| && states[i].cleanups > 0
    ensures states[i].cleanups == states[j].cleanups == 1
    ensures states[j].deactivated && states[j].refs == 0
  {
    RunInv(states, acts, i);
    RunInv(states, acts, j);
    RunLater(states, acts, i, j);
  }

  /** The step that starts the callback happens with no reference outstanding. */
  lemma CleanupStartsDrained(states: seq<State>, acts: seq<Action>, i: nat)
    requires Run(states, acts) && i < |acts| && states[i].cleanups < states[i + 1].cleanups
    ensures states[i].deactivated && states[i].refs == 0 && states[i].cleanups == 0
  {
    RunInv(states, acts, i);
    RunInv(states, acts, i + 1);
  }

  /** At most one deactivate call wins: once deactivated, no other one changes the counter. */
  lemma DeactivateWinsOnce(states: seq<State>, acts: seq<Action>, i: nat, j: nat)
    requires Run(states, acts) && i <= j < |acts| && states[i].deactivated
    requires acts[j].Deactivate? || acts[j].DeactivateLoad? || acts[j].DeactivateCas?
    ensures states[j + 1].count == states[j].count
  {
    RunLater(states, acts, i, j);
    RunInv(states, acts, j);
    CounterDecodes(states, acts, j);
  }

  // ----- what each call achieves

  /** An activate call on a new object activates it; on any other it changes nothing. */
  lemma ActivateWorks(states: seq<State>, acts: seq<Action>, i: nat)
    requires Run(states, acts) && i < |acts| && acts[i].Activate?
    ensures states[i + 1].activated <==> states[i].activated || !states[i].deactivated
    ensures states[i].activated || states[i].deactivated ==> states[i + 1] == states[i]
  {
    CounterDecodes(states, acts, i);
  }

  /** A deactivate call that is the first to see an object, or whose exchange finds the value it read,
      deactivates it; one that reads an active object goes on to an exchange with the value it read. */
  lemma DeactivateWorks(states: seq<State>, acts: seq<Action>, i: nat, t: nat)
    requires Run(states, acts) && i < |acts| && !states[i].deactivated
    ensures acts[i] == Deactivate(t) && !states[i].activated ==> states[i + 1].deactivated && At(states[i + 1], t).Idle?
    ensures acts[i] == Deactivate(t) && states[i].activated ==> At(states[i + 1], t).DeactivateRead?
    ensures acts[i] == DeactivateLoad(t) ==> At(states[i + 1], t) == DeactivateSwap(states[i].refs)
    ensures acts[i] == DeactivateCas(t) && At(states[i], t).v == states[i].refs ==>
              states[i + 1].deactivated && At(states[i + 1], t).Idle?
    ensures acts[i] == DeactivateCas(t) && At(states[i], t).v != states[i].refs ==>
              At(states[i + 1], t) == DeactivateSwap(states[i].refs)
  {
    RunInv(states, acts, i);
  }

  ghost predicate Deactivating(s: State, t: nat) {
    s.deactivated || At(s, t).DeactivateRead? || At(s, t).DeactivateSwap?
  }

  lemma DeactivatingStep(s: State, act: Action, t: nat)
    requires Inv(s) && Enabled(s, act) && (Deactivating(s, t) || act == Deactivate(t))
    ensures Deactivating(Apply(s, act), t)
  {
  }

  /** A deactivate call returns only once the object is deactivated, by whomever. */
  lemma {:induction false} DeactivateReturns(states: seq<State>, acts: seq<Action>, i: nat, j: nat, t: nat)
    requires Run(states, acts) && i < j <= |acts| && acts[i] == Deactivate(t)
    ensures Deactivating(states[j], t)
    ensures At(states[j], t).Idle? ==> states[j].deactivated
    decreases j
  {
    RunInv(states, acts, j - 1);
    if i + 1 < j {
      DeactivateReturns(states, acts, i, j - 1, t);
    }
    DeactivatingStep(states[j - 1], acts[j - 1], t);
  }

  /** The thread is inside a cleanup call, or the callback has finished. */
  ghost predicate CleaningUp(s: State, t: nat) {
    s.finished > 0 || At(s, t).CleanupDirect? || At(s, t).CleanupBias? || At(s, t).Cleaning? || At(s, t).Waiting?
  }

  lemma CleaningUpStep(s: State, act: Action, t: nat)
    requires Inv(s) && Enabled(s, act) && act != CleanupWait(t, true)
    requires CleaningUp(s, t) || (act == Cleanup(t) && s.deactivated && s.refs == 0)
    ensures CleaningUp(Apply(s, act), t)
  {
  }

  lemma {:induction false} StaysInCleanup(states: seq<State>, acts: seq<Action>, i: nat, j: nat, t: nat)
    requires Run(states, acts) && i < j <= |acts| && acts[i] == Cleanup(t)
    requires states[i].deactivated && states[i].refs == 0
    requires forall k | i < k < j :: acts[k] != CleanupWait(t, true)
    ensures CleaningUp(states[j], t)
    decreases j
  {
    RunInv(states, acts, j - 1);
    if i + 1 < j {
      StaysInCleanup(states, acts, i, j - 1, t);
    }
    CleaningUpStep(states[j - 1], acts[j - 1], t);
  }

  /** A cleanup call on a drained object returns only once the callback was run, exactly once, by whomever;
      unless the call is one that skips the wait. */
  lemma CleanupReturns(states: seq<State>, acts: seq<Action>, i: nat, j: nat, t: nat)
    requires Run(states, acts) && i < j <= |acts| && acts[i] == Cleanup(t)
    requires states[i].deactivated && states[i].refs == 0
    requires forall k | i < k < j :: acts[k] != CleanupWait(t, true)
    ensures At(states[j], t).Idle? ==> states[j].cleanups == states[j].finished == 1
  {
    StaysInCleanup(states, acts, i, j, t);
    RunInv(states, acts, j);
  }

  /** The exchanges of a cleanup call: the callback is started by whoever gets there first, through the
      first exchange if the object was never active and through the second one if it was. The others
      wait for a callback that was started. */
  lemma CleanupDecides(states: seq<State>, acts: seq<Action>, i: nat, t: nat)
    requires Run(states, acts) && i < |acts| && acts[i] == CleanupCas(t)
    ensures var s, s' := states[i], states[i + 1];
            && (At(s', t).Cleaning? <==> s.cleanups == 0 && (s.activated <==> At(s, t).CleanupBias?))
            && (At(s', t).Cleaning? ==> s'.cleanups == 1)
            && (!At(s', t).Cleaning? ==> if At(s, t).CleanupDirect? then At(s', t).CleanupBias? else At(s', t).Waiting? && s.cleanups == 1)
  {
    RunInv(states, acts, i);
  }

  /** A callback that was started is being run by a thread or has finished, and is then marked as done; so
      a thread that waits can go on once that thread is through. */
  lemma CleanupCompletes(states: seq<State>, acts: seq<Action>, i: nat)
    requires Run(states, acts) && i <= |acts| && states[i].cleanups == 1
    requires forall t | t in states[i].threads :: !states[i].threads[t].Cleaning?
    ensures states[i].finished == 1 && states[i].count == DONE
    ensures forall t, skip | At(states[i], t).Waiting? :: Enabled(states[i], CleanupWait(t, skip))
  {
    RunInv(states, acts, i);
  }
}
