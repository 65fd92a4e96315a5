/** What errors leave behind: keys the GC never gets back, and caches without an event handler. */
module CacheFaults {
  import opened Keys
  import opened Caches

  // == An error of the usage check ==

  /** Taken by the GC and never given back. */
  predicate Stuck(s: State, k: CacheKey) {
    k in s.queue.processing && !HeldByGc(s, k)
  }

  /** Step `m` is an error of the check of that key. */
  predicate CheckFailsAt(run: seq<State>, steps: seq<Step>, m: int, k: CacheKey) {
    0 <= m < |steps| < |run| && steps[m] == GcFails && run[m].gc.Checking? && run[m].gc.key == k
  }

  lemma StuckAfterStep(s: State, step: Step, k: CacheKey)
    requires Inv(s) && Enabled(s, step)
    ensures Stuck(Apply(s, step), k) <==> Stuck(s, k) || (step == GcFails && s.gc.key == k)
  {
    match step
    case GcTake =>
      assert s.queue.order[0] in s.queue.order;
    case _ =>
  }

  lemma StuckIsNotRemoved(s: State, step: Step, k: CacheKey)
    requires Inv(s) && Enabled(s, step) && Stuck(s, k) && k in s.caches
    ensures Find(Apply(s, step), k) == Find(s, k)
  {
    EntriesStayOrAreCancelled(s, step);
  }

  /** A key is stuck exactly when one of its checks has failed. */
  lemma {:induction false} StuckIffCheckFailed(run: seq<State>, steps: seq<Step>, n: nat, k: CacheKey)
    requires IsRun(run, steps) && n < |run|
    ensures Stuck(run[n], k) <==> exists m :: m < n && CheckFailsAt(run, steps, m, k)
  {
    if n == 0 {
      assert run[0] == INITIAL.(stored := run[0].stored);
    } else {
      StuckIffCheckFailed(run, steps, n - 1, k);
      EveryRunKeepsInv(run, steps, n - 1);
      assert StepAt(run, steps, n - 1);
      StuckAfterStep(run[n - 1], steps[n - 1], k);
      assert steps[n - 1] == GcFails && run[n - 1].gc.key == k ==> CheckFailsAt(run, steps, n - 1, k);
    }
  }

  /** From the failed check on, the entry of that key never changes once there is one: it is never collected. */
  lemma {:induction false} StuckForever(run: seq<State>, steps: seq<Step>, m: nat, x: nat, n: nat, k: CacheKey)
    requires IsRun(run, steps) && m < x <= n < |run| && CheckFailsAt(run, steps, m, k) && k in run[x].caches
    ensures Find(run[n], k) == Find(run[x], k)
    decreases n
  {
    if x < n {
      StuckForever(run, steps, m, x, n - 1, k);
      StuckIffCheckFailed(run, steps, n - 1, k);
      EveryRunKeepsInv(run, steps, n - 1);
      assert StepAt(run, steps, n - 1);
      StuckIsNotRemoved(run[n - 1], steps[n - 1], k);
    }
  }

  /** The queue or the GC still has the key, or its maker will register it. */
  ghost predicate WillBeChecked(s: State, k: CacheKey) {
    || k in s.queue.order || k in s.queue.delayed || HeldByGc(s, k)
    || (k in s.caches && HeldByMaker(s, k))
  }

  /** Without an error on the key, its cache will be checked: it is queued, delayed, or held by the GC or its maker. */
  lemma CheckedUnlessCheckFailed(run: seq<State>, steps: seq<Step>, n: nat, k: CacheKey)
    requires IsRun(run, steps) && n < |run| && k in run[n].caches
    requires forall m | 0 <= m < n :: !CheckFailsAt(run, steps, m, k)
    ensures WillBeChecked(run[n], k)
  {
    StuckIffCheckFailed(run, steps, n, k);
    EveryRunKeepsInv(run, steps, n);
  }

  // == An error of the call that made a cache ==

  /** An incarnation without an event handler, and without a call that will still install one. */
  ghost predicate Deaf(s: State, id: nat) {
    id < s.next && s.handlers[id] == 0 && forall w: nat :: !Makes(s, w, id)
  }

  predicate Makes(s: State, w: nat, id: nat) {
    w in s.calls && IsMaker(s.calls[w]) && s.calls[w].id == id
  }

  lemma DeafStays(s: State, step: Step, id: nat)
    requires Enabled(s, step) && Deaf(s, id)
    ensures Deaf(Apply(s, step), id)
  {
    var s' := Apply(s, step);
    assert step.Handle? ==> !Makes(s, step.w, id);
    forall w: nat
      ensures !Makes(s', w, id)
    {
      assert !Makes(s, w, id);
    }
  }

  lemma FailingMakerLeavesDeaf(s: State, w: nat)
    requires Inv(s) && Enabled(s, Fail(w)) && IsMaker(s.calls[w])
    ensures Deaf(Apply(s, Fail(w)), s.calls[w].id)
  {
  }

  /** An incarnation becomes deaf only by the failure of its maker. */
  lemma HearsUnlessMakerFails(s: State, step: Step, id: nat)
    requires Enabled(s, step) && id < Apply(s, step).next && !Deaf(s, id)
    requires !(step.Fail? && Makes(s, step.w, id))
    ensures !Deaf(Apply(s, step), id)
  {
    var s' := Apply(s, step);
    if id == s.next {
      assert Makes(s', step.w, id);
    } else if s.handlers[id] == 0 {
      var w :| Makes(s, w, id);
      if step != Handle(w) {
        assert Makes(s', w, id);
      }
    }
  }

  predicate MakerFailsAt(run: seq<State>, steps: seq<Step>, m: int, w: nat, id: nat) {
    0 <= m < |steps| < |run| && steps[m] == Fail(w) && Makes(run[m], w, id)
  }

  /** An incarnation has no handler and gets none exactly when the call that made it has failed. */
  lemma {:induction false} DeafIffMakerFailed(run: seq<State>, steps: seq<Step>, n: nat, id: nat)
    requires IsRun(run, steps) && n < |run| && id < run[n].next
    ensures Deaf(run[n], id) <==> exists m, w :: m < n && MakerFailsAt(run, steps, m, w, id)
  {
    if n > 0 {
      var s, step := run[n - 1], steps[n - 1];
      EveryRunKeepsInv(run, steps, n - 1);
      assert StepAt(run, steps, n - 1);
      if id < s.next {
        DeafIffMakerFailed(run, steps, n - 1, id);
      }
      if Deaf(s, id) {
        DeafStays(s, step, id);
      } else if step.Fail? && Makes(s, step.w, id) {
        FailingMakerLeavesDeaf(s, step.w);
        assert MakerFailsAt(run, steps, n - 1, step.w, id);
      } else {
        HearsUnlessMakerFails(s, step, id);
        NoEarlierMaker(run, steps, n - 1, id);
      }
    }
  }

  /** A call can only have made an incarnation that exists. */
  lemma {:induction false} NoEarlierMaker(run: seq<State>, steps: seq<Step>, n: nat, id: nat)
    requires IsRun(run, steps) && n < |run|
    ensures forall m, w | m <= n && MakerFailsAt(run, steps, m, w, id) :: id < run[n].next
  {
    EveryRunKeepsInv(run, steps, n);
    if n > 0 {
      NoEarlierMaker(run, steps, n - 1, id);
      assert StepAt(run, steps, n - 1);
    }
  }

  /** Once its maker has failed, an incarnation never gets an event handler, however long it is in use. */
  lemma DeafForever(run: seq<State>, steps: seq<Step>, m: nat, n: nat, w: nat, id: nat)
    requires IsRun(run, steps) && m < n < |run| && MakerFailsAt(run, steps, m, w, id)
    ensures run[n].handlers[id] == 0
  {
    NoEarlierMaker(run, steps, n, id);
    DeafIffMakerFailed(run, steps, n, id);
  }
}
