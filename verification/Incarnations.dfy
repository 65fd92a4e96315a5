/**
 Which incarnation of a cache the GC cancels. It remembers a key, not an incarnation; when it took a key without an
 entry, it may cancel a cache that was made only afterwards.
 */
module Incarnations {
  import opened Options
  import opened Keys
  import opened Caches
  import opened Collection

  predicate TakesAt(run: seq<State>, steps: seq<Step>, m: int, k: CacheKey) {
    0 <= m < |steps| < |run| && steps[m] == GcTake && run[m].queue.order != [] && run[m].queue.order[0] == k
  }

  /** Step `m` takes the key, and the GC still holds it at `n`. */
  predicate HeldSince(run: seq<State>, steps: seq<Step>, m: int, n: int, k: CacheKey) {
    TakesAt(run, steps, m, k) && m < n < |run| && forall x | m < x <= n :: HeldByGc(run[x], k)
  }

  // == What the GC saw ==

  /** The GC has taken the key it holds, and `seen` is the entry at that moment. */
  lemma {:induction false} HeldWasTaken(run: seq<State>, steps: seq<Step>, n: nat)
    requires IsRun(run, steps) && n < |run| && !run[n].gc.Taking?
    ensures exists m :: HeldSince(run, steps, m, n, run[n].gc.key)
  {
    assert n > 0;
    assert StepAt(run, steps, n - 1);
    if run[n - 1].gc.Taking? {
      assert HeldSince(run, steps, n - 1, n, run[n].gc.key);
    } else {
      HeldWasTaken(run, steps, n - 1);
      var m :| HeldSince(run, steps, m, n - 1, run[n - 1].gc.key);
      assert HeldSince(run, steps, m, n, run[n].gc.key);
    }
  }

  lemma {:induction false} SeenAtTake(run: seq<State>, steps: seq<Step>, m: int, n: int, k: CacheKey)
    requires IsRun(run, steps) && HeldSince(run, steps, m, n, k)
    ensures run[n].gc.seen == Find(run[m], k)
    decreases n
  {
    assert StepAt(run, steps, n - 1);
    assert HeldByGc(run[n], k);
    if n > m + 1 {
      assert HeldByGc(run[n - 1], k);
      assert HeldSince(run, steps, m, n - 1, k);
      SeenAtTake(run, steps, m, n - 1, k);
    }
  }

  lemma {:induction false} NothingGoesWithoutRemoval(run: seq<State>, steps: seq<Step>, j: int, n: int, k: CacheKey)
    requires IsRun(run, steps) && 0 <= j <= n < |run| && forall x | j <= x < n :: steps[x] != GcRemove
    ensures run[j].next <= run[n].next
    ensures k in run[j].caches ==> Find(run[n], k) == Find(run[j], k)
    ensures k !in run[j].caches && k in run[n].caches ==> run[n].caches[k] >= run[j].next
    decreases n
  {
    if j < n {
      NothingGoesWithoutRemoval(run, steps, j, n - 1, k);
      assert StepAt(run, steps, n - 1);
      EntryAfterStep(run[n - 1], steps[n - 1], k);
    }
  }

  lemma EntryAfterStep(s: State, step: Step, k: CacheKey)
    requires Enabled(s, step) && step != GcRemove
    ensures s.next <= Apply(s, step).next
    ensures k in s.caches ==> Find(Apply(s, step), k) == Find(s, k)
    ensures k !in s.caches && k in Apply(s, step).caches ==> Apply(s, step).caches[k] == s.next
  {
  }

  lemma NoRemovalWhileHeld(run: seq<State>, steps: seq<Step>, m: int, n: int, k: CacheKey)
    requires IsRun(run, steps) && HeldSince(run, steps, m, n, k)
    ensures forall x | m <= x < n :: steps[x] != GcRemove
  {
    forall x | m <= x < n
      ensures steps[x] != GcRemove
    {
      assert StepAt(run, steps, x);
      assert HeldByGc(run[x + 1], k);
    }
  }

  /** Step `n` cancels the cache of the key. */
  predicate CancelsAt(run: seq<State>, steps: seq<Step>, n: int, k: CacheKey) {
    0 <= n < |steps| < |run| && steps[n] == GcRemove && run[n].gc.Removing? && run[n].gc.key == k && k in run[n].caches
  }

  /** The cancelled incarnation is newer than state `j` exactly when the key had no entry then. */
  ghost predicate NewerIff(run: seq<State>, j: int, n: int, k: CacheKey)
    requires 0 <= j < |run| && 0 <= n < |run| && k in run[n].caches
  {
    run[n].caches[k] >= run[j].next <==> k !in run[j].caches
  }

  lemma NewerThanStateIff(run: seq<State>, steps: seq<Step>, m: int, j: int, n: int, k: CacheKey)
    requires IsRun(run, steps) && CancelsAt(run, steps, n, k) && HeldSince(run, steps, m, n, k) && m <= j <= n
    ensures NewerIff(run, j, n, k)
  {
    NoRemovalWhileHeld(run, steps, m, n, k);
    NothingGoesWithoutRemoval(run, steps, j, n, k);
    EveryRunKeepsInv(run, steps, j);
  }

  /**
   The key of a cancelled cache was taken at some step `m`, and `seen` is its entry at that moment. The incarnation is
   newer than that exactly when there was no entry; and newer than any later state of the turn, such as the check,
   exactly when there was none then.
   */
  lemma CancelsNewerIff(run: seq<State>, steps: seq<Step>, n: int, k: CacheKey)
    requires IsRun(run, steps) && CancelsAt(run, steps, n, k)
    ensures exists m :: HeldSince(run, steps, m, n, k)
    ensures forall m | HeldSince(run, steps, m, n, k) ::
      && run[n].gc.seen == Find(run[m], k)
      && (run[n].caches[k] >= run[m].next <==> run[n].gc.seen.None?)
      && forall j | m <= j <= n :: NewerIff(run, j, n, k)
  {
    HeldWasTaken(run, steps, n);
    forall m | HeldSince(run, steps, m, n, k)
      ensures run[n].gc.seen == Find(run[m], k)
      ensures run[n].caches[k] >= run[m].next <==> run[n].gc.seen.None?
      ensures forall j | m <= j <= n :: NewerIff(run, j, n, k)
    {
      SeenAtTake(run, steps, m, n, k);
      forall j | m <= j <= n
        ensures NewerIff(run, j, n, k)
      {
        NewerThanStateIff(run, steps, m, j, n, k);
      }
      assert NewerIff(run, m, n, k);
    }
  }

  // == When a key is taken without an entry ==

  predicate CreatesAt(run: seq<State>, steps: seq<Step>, x: int, k: CacheKey) {
    && 0 <= x < |steps| < |run| && steps[x].Recheck? && steps[x].w in run[x].calls
    && run[x].calls[steps[x].w] == Building(k) && k !in run[x].caches
  }

  /** Step `r` removes the entry, and none is made before `n`. */
  ghost predicate RemovedLast(run: seq<State>, steps: seq<Step>, r: int, n: int, k: CacheKey) {
    CancelsAt(run, steps, r, k) && r < n && forall x | r < x < n :: !CreatesAt(run, steps, x, k)
  }

  /** The queue, the GC or a call about to register has the key. */
  ghost predicate Mentions(s: State, k: CacheKey) {
    || k in s.queue.order || k in s.queue.dirty || k in s.queue.delayed || HeldByGc(s, k)
    || exists w :: w in s.calls && s.calls[w].Registering? && s.calls[w].key == k
  }

  lemma MentionedWasMapped(s: State, step: Step, k: CacheKey)
    requires Enabled(s, step) && Mentions(Apply(s, step), k)
    ensures Mentions(s, k) || k in Apply(s, step).caches
  {
    var s' := Apply(s, step);
    if w :| w in s'.calls && s'.calls[w].Registering? && s'.calls[w].key == k {
      assert w in s.calls && s.calls[w].Registering? ==> Mentions(s, k);
    }
  }

  lemma {:induction false} WasMapped(run: seq<State>, steps: seq<Step>, n: nat, k: CacheKey)
    requires IsRun(run, steps) && n < |run| && Mentions(run[n], k)
    ensures exists x :: 0 <= x <= n && k in run[x].caches
  {
    assert n > 0;
    assert StepAt(run, steps, n - 1);
    MentionedWasMapped(run[n - 1], steps[n - 1], k);
    if k !in run[n].caches {
      WasMapped(run, steps, n - 1, k);
    }
  }

  lemma {:induction false} AbsentSinceRemoval(run: seq<State>, steps: seq<Step>, x: nat, n: nat, k: CacheKey)
    requires IsRun(run, steps) && x <= n < |run| && k in run[x].caches && k !in run[n].caches
    ensures exists r :: RemovedLast(run, steps, r, n, k)
    decreases n
  {
    assert StepAt(run, steps, n - 1);
    if k in run[n - 1].caches {
      RemovedOnlyAfterSeenUnused(run, steps, n - 1, k);
      assert RemovedLast(run, steps, n - 1, n, k);
    } else {
      AbsentSinceRemoval(run, steps, x, n - 1, k);
      var r :| RemovedLast(run, steps, r, n - 1, k);
      assert RemovedLast(run, steps, r, n, k);
    }
  }

  lemma {:induction false} StaysAbsent(run: seq<State>, steps: seq<Step>, r: int, n: int, k: CacheKey)
    requires IsRun(run, steps) && n < |run| && RemovedLast(run, steps, r, n, k)
    ensures k !in run[n].caches
    decreases n
  {
    assert StepAt(run, steps, n - 1);
    if r < n - 1 {
      assert RemovedLast(run, steps, r, n - 1, k);
      StaysAbsent(run, steps, r, n - 1, k);
      assert !CreatesAt(run, steps, n - 1, k);
    }
  }

  /** The GC takes a key without an entry exactly when its cache was removed, and none has been made since. */
  lemma TakesAbsentKeyIff(run: seq<State>, steps: seq<Step>, m: int, k: CacheKey)
    requires IsRun(run, steps) && TakesAt(run, steps, m, k)
    ensures k !in run[m].caches <==> exists r :: RemovedLast(run, steps, r, m, k)
  {
    if k !in run[m].caches {
      WasMapped(run, steps, m, k);
      var x :| 0 <= x <= m && k in run[x].caches;
      AbsentSinceRemoval(run, steps, x, m, k);
    }
    if r :| RemovedLast(run, steps, r, m, k) {
      StaysAbsent(run, steps, r, m, k);
    }
  }

  /** Step `x` puts the key on the queue: a call registers it, or its delay is over. */
  predicate QueuesAt(run: seq<State>, steps: seq<Step>, x: int, k: CacheKey) {
    && 0 <= x < |steps| < |run|
    && (steps[x] == FireTimer(k)
        || (steps[x].Register? && steps[x].w in run[x].calls && run[x].calls[steps[x].w].key == k))
  }

  lemma {:induction false} NotQueuedByItself(run: seq<State>, steps: seq<Step>, t: int, n: int, k: CacheKey)
    requires IsRun(run, steps) && TakesAt(run, steps, t, k) && t < n < |run|
    requires forall x | t < x < n :: !QueuesAt(run, steps, x, k)
    ensures k !in run[n].queue.dirty && k !in run[n].queue.order
    decreases n
  {
    EveryRunKeepsInv(run, steps, n - 1);
    assert StepAt(run, steps, n - 1);
    if t < n - 1 {
      NotQueuedByItself(run, steps, t, n - 1, k);
      assert !QueuesAt(run, steps, n - 1, k);
    }
  }

  /** A key that is taken again after a removal was queued again during the turn that removed it, or after it. */
  lemma AbsentKeyWasQueuedAgain(run: seq<State>, steps: seq<Step>, t: int, r: int, m: int, k: CacheKey)
    requires IsRun(run, steps) && TakesAt(run, steps, m, k)
    requires RemovedLast(run, steps, r, m, k) && HeldSince(run, steps, t, r, k)
    ensures exists x :: t < x < m && QueuesAt(run, steps, x, k)
  {
    if forall x | t < x < m :: !QueuesAt(run, steps, x, k) {
      NotQueuedByItself(run, steps, t, m, k);
    }
  }

  // == Why a removed key can be on the queue ==

  /** Step `x` registers a cache that the call found at its locked re-check, and did not make. */
  predicate RegistersFoundAt(run: seq<State>, steps: seq<Step>, x: int, k: CacheKey) {
    && 0 <= x < |steps| < |run| && steps[x].Register? && RegistersFound(run[x], steps[x].w, k)
  }

  predicate RegistersFound(s: State, w: nat, k: CacheKey) {
    w in s.calls && s.calls[w].Registering? && s.calls[w].key == k && !s.calls[w].created
  }

  /** A call that is about to register a cache it made. */
  predicate Announces(s: State, w: nat, k: CacheKey) {
    w in s.calls && s.calls[w].Registering? && s.calls[w].key == k && s.calls[w].created
  }

  /** The GC has given the key back to the queue, but is not done with it. */
  predicate BetweenDoneAndNext(s: State, k: CacheKey) {
    (s.gc.Requeueing? || s.gc.Removing?) && s.gc.key == k
  }

  function One(b: bool): nat {
    if b then 1 else 0
  }

  /** In how many places the key is on its way through the GC. */
  ghost function Places(s: State, k: CacheKey): nat {
    One(k in s.queue.order) + One(k in s.queue.delayed) + One(k in s.queue.processing) + One(BetweenDoneAndNext(s, k))
    + One(exists w :: Announces(s, w, k))
  }

  /** A key with an entry is in one place, and others in none. */
  ghost predicate InOnePlace(s: State, k: CacheKey) {
    && Places(s, k) == One(k in s.caches)
    && (k in s.queue.dirty ==> k in s.queue.order)
    && forall w | Announces(s, w, k) :: Find(s, k) == Some(s.calls[w].id)
  }

  lemma SamePlace(s: State, s': State, k: CacheKey)
    requires InOnePlace(s, k) && s'.queue == s.queue && s'.gc == s.gc && s'.caches == s.caches
    requires forall w :: Announces(s', w, k) ==> Announces(s, w, k) && s'.calls[w] == s.calls[w]
    requires forall w :: Announces(s, w, k) ==> Announces(s', w, k)
    ensures InOnePlace(s', k)
  {
  }

  predicate IsCallStep(step: Step) {
    step.Enter? || step.Lookup? || step.Recheck? || step.Inform? || step.Handle? || step.Fail?
  }

  lemma TakeKeepsPlace(s: State, k: CacheKey)
    requires Inv(s) && Enabled(s, GcTake) && InOnePlace(s, k)
    ensures InOnePlace(Apply(s, GcTake), k)
  {
    var s' := Apply(s, GcTake);
    assert forall w :: Announces(s', w, k) == Announces(s, w, k);
    assert forall x :: x in s.queue.order <==> x == s.queue.order[0] || x in s.queue.order[1..];
  }

  lemma GcStepKeepsPlace(s: State, step: Step, k: CacheKey)
    requires Inv(s) && Enabled(s, step) && InOnePlace(s, k)
    requires !IsCallStep(step) && !step.Register? && step != GcTake
    ensures InOnePlace(Apply(s, step), k)
  {
    var s' := Apply(s, step);
    assert s'.calls == s.calls;
    assert forall w :: Announces(s', w, k) == Announces(s, w, k);
    hide NothingLost, LifetimesMatch, OneHandlerEach;
  }

  lemma RecheckKeepsPlace(s: State, w: nat, k: CacheKey)
    requires Enabled(s, Recheck(w)) && InOnePlace(s, k)
    ensures InOnePlace(Apply(s, Recheck(w)), k)
  {
    var s' := Apply(s, Recheck(w));
    assert forall w' | w' != w :: Announces(s', w', k) == Announces(s, w', k);
    if s.calls[w].key == k && k !in s.caches {
      assert Announces(s', w, k);
    } else {
      assert !Announces(s', w, k) && !Announces(s, w, k);
    }
  }

  lemma CallStepKeepsPlace(s: State, step: Step, k: CacheKey)
    requires Enabled(s, step) && InOnePlace(s, k) && IsCallStep(step)
    ensures InOnePlace(Apply(s, step), k)
  {
    if step.Recheck? {
      RecheckKeepsPlace(s, step.w, k);
    } else {
      hide InOnePlace;
      SamePlace(s, Apply(s, step), k);
    }
  }

  lemma OneAnnounces(s: State, w: nat, w': nat, k: CacheKey)
    requires OneHandlerEach(s) && InOnePlace(s, k) && Announces(s, w, k) && Announces(s, w', k)
    ensures w == w'
  {
    assert s.calls[w].id == s.calls[w'].id && IsMaker(s.calls[w]) && IsMaker(s.calls[w']);
  }

  lemma RegisterKeepsPlace(s: State, w: nat, k: CacheKey)
    requires Inv(s) && Enabled(s, Register(w)) && InOnePlace(s, k) && !RegistersFound(s, w, k)
    ensures InOnePlace(Apply(s, Register(w)), k)
  {
    var s' := Apply(s, Register(w));
    assert forall w' | w' != w :: Announces(s', w', k) == Announces(s, w', k);
    assert !Announces(s', w, k);
    if s.calls[w].key == k {
      assert Announces(s, w, k);
      forall w': nat
        ensures !Announces(s', w', k)
      {
        if Announces(s, w', k) {
          OneAnnounces(s, w, w', k);
        }
      }
    }
  }

  lemma {:induction false} StaysInOnePlace(run: seq<State>, steps: seq<Step>, n: nat, k: CacheKey)
    requires IsRun(run, steps) && n < |run| && forall x | 0 <= x < n :: !RegistersFoundAt(run, steps, x, k)
    ensures InOnePlace(run[n], k)
  {
    if n > 0 {
      var s, step := run[n - 1], steps[n - 1];
      StaysInOnePlace(run, steps, n - 1, k);
      EveryRunKeepsInv(run, steps, n - 1);
      assert StepAt(run, steps, n - 1);
      assert !RegistersFoundAt(run, steps, n - 1, k);
      match step
      case Register(w) => RegisterKeepsPlace(s, w, k);
      case GcTake => TakeKeepsPlace(s, k);
      case _ =>
        if IsCallStep(step) {
          CallStepKeepsPlace(s, step, k);
        } else {
          GcStepKeepsPlace(s, step, k);
        }
    }
  }

  /**
   A key is taken without an entry only if a call has registered a cache it did not make. So if the calls that find a
   cache at their re-check did not register it, the GC would never cancel an incarnation newer than the one it took.
   */
  lemma CancelsNewerOnlyAfterFound(run: seq<State>, steps: seq<Step>, m: int, n: int, k: CacheKey)
    requires IsRun(run, steps) && CancelsAt(run, steps, n, k) && HeldSince(run, steps, m, n, k)
    requires run[n].caches[k] >= run[m].next
    ensures exists x :: x < m && RegistersFoundAt(run, steps, x, k)
  {
    CancelsNewerIff(run, steps, n, k);
    if forall x | 0 <= x < m :: !RegistersFoundAt(run, steps, x, k) {
      StaysInOnePlace(run, steps, m, k);
    }
  }

  // == A run in which it happens ==

  function QueuedOnce(k: CacheKey): Queue {
    Queue([k], {k}, {}, {})
  }

  function BeingProcessed(k: CacheKey): Queue {
    Queue([], {}, {k}, {})
  }

  const EMPTY := Queue([], {}, {}, {})

  /** The first removal: calls 0 and 1 share the incarnation 0 when the GC takes it away. */
  function FirstTurn(k: CacheKey, n: nat): State {
    var making := map[0 := Registering(k, 0, true), 1 := Building(k)];
    var made := State(map[k := 0], {0}, 1, multiset{}, EMPTY, making, Taking, {});
    var found := made.(calls := map[0 := Registering(k, 0, true), 1 := Registering(k, 0, false)]);
    var announced := found.(calls := map[0 := Informing(k, 0, true), 1 := Registering(k, 0, false)]);
    if n == 0 then INITIAL
    else if n == 1 then INITIAL.(calls := map[0 := Starting(k)])
    else if n == 2 then INITIAL.(calls := map[0 := Starting(k), 1 := Starting(k)])
    else if n == 3 then INITIAL.(calls := map[0 := Building(k), 1 := Starting(k)])
    else if n == 4 then INITIAL.(calls := map[0 := Building(k), 1 := Building(k)])
    else if n == 5 then made
    else if n == 6 then found
    else if n == 7 then announced.(queue := QueuedOnce(k))
    else if n == 8 then announced.(queue := BeingProcessed(k), gc := Checking(k, Some(0)))
    else if n == 9 then announced.(queue := BeingProcessed(k), gc := Dropping(k, Some(0)))
    else announced.(gc := Removing(k, Some(0)))
  }

  /** The second one: call 1 queues the key again, and call 2 makes the incarnation 1 after it was checked. */
  function SecondTurn(k: CacheKey, n: nat): State {
    var calls := map[0 := Informing(k, 0, true), 1 := Informing(k, 0, false)];
    var gone := State(map[], {}, 1, multiset{}, EMPTY, calls, Taking, {});
    var checked := gone.(queue := BeingProcessed(k), gc := Dropping(k, None));
    var remade := checked.(
      caches := map[k := 1], live := {1}, next := 2, calls := calls[2 := Registering(k, 1, true)]);
    if n == 11 then gone.(calls := map[0 := Informing(k, 0, true), 1 := Registering(k, 0, false)])
    else if n == 12 then gone.(queue := QueuedOnce(k))
    else if n == 13 then gone.(queue := BeingProcessed(k), gc := Checking(k, None))
    else if n == 14 then checked
    else if n == 15 then checked.(calls := calls[2 := Starting(k)])
    else if n == 16 then checked.(calls := calls[2 := Building(k)])
    else if n == 17 then remade
    else if n == 18 then remade.(queue := EMPTY, gc := Removing(k, None))
    else remade.(queue := EMPTY, gc := Taking, caches := map[], live := {})
  }

  function StateAt(k: CacheKey, n: nat): State {
    if n <= 10 then FirstTurn(k, n) else SecondTurn(k, n)
  }

  function NewerSteps(k: CacheKey): seq<Step> {
    [Enter(0, k), Enter(1, k), Lookup(0), Lookup(1), Recheck(0), Recheck(1), Register(0),
     GcTake, GcSeesUnused, GcDropDone, GcRemove,
     Register(1), GcTake, GcSeesUnused, Enter(2, k), Lookup(2), Recheck(2), GcDropDone, GcRemove]
  }

  lemma TwoCallsShare(k: CacheKey)
    ensures forall n | 0 <= n < 7 :: Takes(StateAt(k, n), NewerSteps(k)[n], StateAt(k, n + 1))
  {
  }

  lemma TheirCacheGoes(k: CacheKey)
    ensures forall n | 7 <= n < 11 :: Takes(StateAt(k, n), NewerSteps(k)[n], StateAt(k, n + 1))
  {
    assert [k][1..] == [];
  }

  lemma TakenWithoutEntry(k: CacheKey)
    ensures forall n | 11 <= n < 14 :: Takes(StateAt(k, n), NewerSteps(k)[n], StateAt(k, n + 1))
  {
    assert [k][1..] == [];
  }

  lemma NewerOneGoes(k: CacheKey)
    ensures forall n | 14 <= n < 19 :: Takes(StateAt(k, n), NewerSteps(k)[n], StateAt(k, n + 1))
  {
  }

  /** The last step cancels an incarnation that was made after the GC took its key, and even after its check. */
  ghost predicate CancelsNewer(run: seq<State>, steps: seq<Step>, m: int, c: int, n: int, k: CacheKey) {
    && IsRun(run, steps) && HeldSince(run, steps, m, n, k) && SeenUnusedAt(run, steps, c, n, k) && m < c
    && CancelsAt(run, steps, n, k) && run[n].caches[k] >= run[c].next
  }

  lemma GcCancelsNewerIncarnation(k: CacheKey)
    ensures exists run, steps, m, c, n :: CancelsNewer(run, steps, m, c, n, k)
  {
    var run, steps := seq(20, n requires 0 <= n < 20 => StateAt(k, n)), NewerSteps(k);
    TwoCallsShare(k);
    TheirCacheGoes(k);
    TakenWithoutEntry(k);
    NewerOneGoes(k);
    forall n | 0 <= n < 19
      ensures StepAt(run, steps, n)
    {
      assert Takes(StateAt(k, n), steps[n], StateAt(k, n + 1));
    }
    assert IsRun(run, steps);
    assert CancelsNewer(run, steps, 12, 13, 18, k);
  }
}
