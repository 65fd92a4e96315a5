/** What the garbage collector removes, and what that means for the calls that hold a cache. */
module Collection {
  import opened Options
  import opened Api
  import opened Keys
  import opened Indexing
  import opened Caches

  /** Step `m` of the run is the check that found the key unused, and the GC has not let go of it since. */
  ghost predicate SeenUnusedAt(run: seq<State>, steps: seq<Step>, m: int, n: int, k: CacheKey)
    requires IsRun(run, steps)
  {
    && 0 <= m < n < |run| && steps[m] == GcSeesUnused
    && run[m].gc.Checking? && run[m].gc.key == k && !IsCacheUsed(run[m].stored, k)
    && forall x :: m < x <= n ==> (run[x].gc.Dropping? || run[x].gc.Removing?) && run[x].gc.key == k
  }

  lemma {:induction false} DroppedWasSeenUnused(run: seq<State>, steps: seq<Step>, n: nat)
    requires IsRun(run, steps) && n < |run| && (run[n].gc.Dropping? || run[n].gc.Removing?)
    ensures exists m :: SeenUnusedAt(run, steps, m, n, run[n].gc.key)
  {
    assert n > 0;
    assert StepAt(run, steps, n - 1);
    if run[n - 1].gc.Dropping? || run[n - 1].gc.Removing? {
      DroppedWasSeenUnused(run, steps, n - 1);
      var m :| SeenUnusedAt(run, steps, m, n - 1, run[n - 1].gc.key);
      assert SeenUnusedAt(run, steps, m, n, run[n].gc.key);
    } else {
      assert SeenUnusedAt(run, steps, n - 1, n, run[n].gc.key);
    }
  }

  /** A cache is removed only after a check that found no stored pipeline under its key. */
  lemma RemovedOnlyAfterSeenUnused(run: seq<State>, steps: seq<Step>, n: nat, k: CacheKey)
    requires IsRun(run, steps) && n < |steps| && k in run[n].caches && k !in run[n + 1].caches
    ensures steps[n] == GcRemove && run[n].gc.Removing? && run[n].gc.key == k
    ensures exists m :: SeenUnusedAt(run, steps, m, n, k)
  {
    EveryRunKeepsInv(run, steps, n);
    assert StepAt(run, steps, n);
    EntriesStayOrAreCancelled(run[n], steps[n]);
    DroppedWasSeenUnused(run, steps, n);
  }

  /** What was stored last after step `m` and before step `n` uses the key. */
  ghost predicate UserStoredBetween(steps: seq<Step>, m: int, n: int, k: CacheKey) {
    exists x :: 0 <= m < x < n <= |steps| && LastStore(steps, x, n) && IsCacheUsed(steps[x].stored, k)
  }

  ghost predicate LastStore(steps: seq<Step>, x: int, n: int) {
    0 <= x < n <= |steps| && steps[x].Store? && forall y | x < y < n :: !steps[y].Store?
  }

  lemma {:induction false} UsedWhileDroppingIff(run: seq<State>, steps: seq<Step>, m: int, n: int, k: CacheKey)
    requires IsRun(run, steps) && SeenUnusedAt(run, steps, m, n, k)
    ensures IsCacheUsed(run[n].stored, k) <==> UserStoredBetween(steps, m, n, k)
    decreases n
  {
    assert StepAt(run, steps, n - 1);
    if n > m + 1 {
      assert SeenUnusedAt(run, steps, m, n - 1, k);
      UsedWhileDroppingIff(run, steps, m, n - 1, k);
      if steps[n - 1].Store? {
        assert LastStore(steps, n - 1, n);
      } else {
        assert forall x :: m < x < n ==> (LastStore(steps, x, n) <==> LastStore(steps, x, n - 1));
      }
    }
  }

  /**
   The removal of a cache, `n`, follows the check that found it unused, `m`. It is in use when it goes exactly when
   the pipelines that were stored last in between use it.
   */
  lemma RemovesUsedCacheIff(run: seq<State>, steps: seq<Step>, n: nat, k: CacheKey)
    requires IsRun(run, steps) && n < |steps| && k in run[n].caches && k !in run[n + 1].caches
    ensures exists m :: SeenUnusedAt(run, steps, m, n, k)
    ensures forall m | SeenUnusedAt(run, steps, m, n, k) ::
      IsCacheUsed(run[n + 1].stored, k) <==> UserStoredBetween(steps, m, n, k)
  {
    RemovedOnlyAfterSeenUnused(run, steps, n, k);
    assert StepAt(run, steps, n);
    forall m | SeenUnusedAt(run, steps, m, n, k)
      ensures IsCacheUsed(run[n + 1].stored, k) <==> UserStoredBetween(steps, m, n, k)
    {
      UsedWhileDroppingIff(run, steps, m, n, k);
    }
  }

  /** Check and removal happen as one: no pipeline is stored in between. */
  ghost predicate CollectsAtomically(run: seq<State>, steps: seq<Step>)
    requires IsRun(run, steps)
  {
    forall n :: 0 <= n < |steps| && steps[n].Store? ==> !run[n].gc.Dropping? && !run[n].gc.Removing?
  }

  /** With check and removal as one, a removed cache is used by no stored pipeline. */
  lemma AtomicGcRemovesOnlyUnused(run: seq<State>, steps: seq<Step>, n: nat, k: CacheKey)
    requires IsRun(run, steps) && CollectsAtomically(run, steps)
    requires n < |steps| && k in run[n].caches && k !in run[n + 1].caches
    ensures !IsCacheUsed(run[n + 1].stored, k)
  {
    RemovesUsedCacheIff(run, steps, n, k);
    var m :| SeenUnusedAt(run, steps, m, n, k);
    assert !UserStoredBetween(steps, m, n, k);
  }

  /** The last step of the run removes the cache of a stored pipeline that uses it. */
  ghost predicate LosesUsedCache(run: seq<State>, steps: seq<Step>, p: Pipeline, k: CacheKey) {
    && IsRun(run, steps) && |steps| > 0
    && k in run[|steps| - 1].caches && k !in run[|steps|].caches
    && p in run[|steps|].stored && IsCacheUsed(run[|steps|].stored, k)
  }

  /** The states of the shortest such run, for any pipeline and key. */
  function RaceState(p: Pipeline, k: CacheKey, n: nat): State {
    var idle := Queue([], {}, {}, {});
    var made := State(map[k := 0], {0}, 1, multiset{}, idle, map[0 := Informing(k, 0, true)], Taking, {});
    if n == 0 then INITIAL
    else if n == 1 then INITIAL.(calls := map[0 := Starting(k)])
    else if n == 2 then INITIAL.(calls := map[0 := Building(k)])
    else if n == 3 then made.(calls := map[0 := Registering(k, 0, true)])
    else if n == 4 then made.(queue := Queue([k], {k}, {}, {}))
    else if n == 5 then made.(queue := Queue([], {}, {k}, {}), gc := Checking(k, Some(0)))
    else if n == 6 then made.(queue := Queue([], {}, {k}, {}), gc := Dropping(k, Some(0)))
    else if n == 7 then made.(queue := Queue([], {}, {k}, {}), gc := Dropping(k, Some(0)), stored := {p})
    else if n == 8 then made.(gc := Removing(k, Some(0)), stored := {p})
    else made.(caches := map[], live := {}, stored := {p})
  }

  function RaceSteps(p: Pipeline, k: CacheKey): seq<Step> {
    [Enter(0, k), Lookup(0), Recheck(0), Register(0), GcTake, GcSeesUnused, Store({p}), GcDropDone, GcRemove]
  }

  predicate Takes(s: State, step: Step, s': State) {
    Enabled(s, step) && Apply(s, step) == s'
  }

  lemma RaceEnters(p: Pipeline, k: CacheKey)
    ensures Takes(RaceState(p, k, 0), Enter(0, k), RaceState(p, k, 1))
    ensures Takes(RaceState(p, k, 1), Lookup(0), RaceState(p, k, 2))
    ensures Takes(RaceState(p, k, 2), Recheck(0), RaceState(p, k, 3))
    ensures Takes(RaceState(p, k, 3), Register(0), RaceState(p, k, 4))
  {
  }

  lemma RaceCollects(p: Pipeline, k: CacheKey)
    ensures Takes(RaceState(p, k, 4), GcTake, RaceState(p, k, 5))
    ensures Takes(RaceState(p, k, 5), GcSeesUnused, RaceState(p, k, 6))
    ensures Takes(RaceState(p, k, 6), Store({p}), RaceState(p, k, 7))
    ensures Takes(RaceState(p, k, 7), GcDropDone, RaceState(p, k, 8))
    ensures Takes(RaceState(p, k, 8), GcRemove, RaceState(p, k, 9))
  {
    assert [k][1..] == [];
  }

  /** Without it, every pipeline can lose a cache it uses: it is stored after the check and before the removal. */
  lemma RaceLosesUsedCache(p: Pipeline, k: CacheKey)
    requires CacheKeyString(k) in CacheKeys(p)
    ensures exists run, steps :: LosesUsedCache(run, steps, p, k)
  {
    RaceIsARun(p, k);
    var run := seq(10, n requires 0 <= n < 10 => RaceState(p, k, n));
    assert run[9].stored == {p} && k in run[8].caches && k !in run[9].caches;
    assert LosesUsedCache(run, RaceSteps(p, k), p, k);
  }

  lemma RaceIsARun(p: Pipeline, k: CacheKey)
    ensures IsRun(seq(10, n requires 0 <= n < 10 => RaceState(p, k, n)), RaceSteps(p, k))
  {
    var run, steps := seq(10, n requires 0 <= n < 10 => RaceState(p, k, n)), RaceSteps(p, k);
    RaceEnters(p, k);
    RaceCollects(p, k);
    forall n | 0 <= n < 9
      ensures StepAt(run, steps, n)
    {
      assert Takes(RaceState(p, k, n), steps[n], RaceState(p, k, n + 1));
    }
  }

  // == The cache a call holds ==

  /** The entry a call has just found or made. */
  lemma CallFindsItsCache(s: State, step: Step, w: nat)
    requires Inv(s) && Enabled(s, step) && (step == Lookup(w) || step == Recheck(w))
    requires HasCache(Apply(s, step).calls[w])
    ensures var s' := Apply(s, step); Find(s', s'.calls[w].key) == Some(s'.calls[w].id)
  {
  }

  lemma EntryGoesOnlyByRemoval(s: State, step: Step, k: CacheKey, id: nat)
    requires Inv(s) && Enabled(s, step) && id < s.next
    ensures id < Apply(s, step).next
    ensures Find(s, k) == Some(id) ==>
      (Find(Apply(s, step), k) == Some(id) <==> !(step == GcRemove && s.gc.key == k))
    ensures step == GcRemove && s.gc.key == k ==> k !in Apply(s, step).caches
    ensures id !in s.live ==> id !in Apply(s, step).live
  {
    EntriesStayOrAreCancelled(s, step);
  }

  ghost predicate RemovedBetween(run: seq<State>, steps: seq<Step>, m: int, n: int, k: CacheKey) {
    |run| == |steps| + 1 && exists x :: 0 <= m <= x < n <= |steps| && RemovesAt(run, steps, x, k)
  }

  predicate RemovesAt(run: seq<State>, steps: seq<Step>, x: int, k: CacheKey) {
    0 <= x < |steps| < |run| && steps[x] == GcRemove && run[x].gc.Removing? && run[x].gc.key == k
  }

  /** The incarnation a call holds is cancelled exactly when the GC has removed its key since. */
  lemma {:induction false} HeldIsLiveUnlessRemoved(
      run: seq<State>, steps: seq<Step>, m: nat, n: nat, k: CacheKey, id: nat)
    requires IsRun(run, steps) && m <= n < |run| && Find(run[m], k) == Some(id)
    ensures id < run[n].next
    ensures id in run[n].live <==> Find(run[n], k) == Some(id)
    ensures id in run[n].live <==> !RemovedBetween(run, steps, m, n, k)
    decreases n
  {
    EveryRunKeepsInv(run, steps, n);
    if n > m {
      HeldIsLiveUnlessRemoved(run, steps, m, n - 1, k, id);
      EveryRunKeepsInv(run, steps, n - 1);
      assert StepAt(run, steps, n - 1);
      EntryGoesOnlyByRemoval(run[n - 1], steps[n - 1], k, id);
      assert RemovedBetween(run, steps, m, n, k)
        <==> RemovedBetween(run, steps, m, n - 1, k) || RemovesAt(run, steps, n - 1, k);
    }
  }

  /**
   With check and removal as one, the cache a call found or made at step `m` stays live for as long as stored
   pipelines use its key.
   */
  lemma {:induction false} UsedCacheStaysLive(
      run: seq<State>, steps: seq<Step>, m: nat, n: nat, k: CacheKey, id: nat)
    requires IsRun(run, steps) && CollectsAtomically(run, steps)
    requires m <= n < |run| && Find(run[m], k) == Some(id)
    requires forall x | m <= x <= n :: IsCacheUsed(run[x].stored, k)
    ensures Find(run[n], k) == Some(id) && id in run[n].live
    decreases n
  {
    hide Inv, IsCacheUsed, CollectsAtomically, RemovedBetween;
    HeldIsLiveUnlessRemoved(run, steps, m, n, k, id);
    if n > m {
      UsedCacheStaysLive(run, steps, m, n - 1, k, id);
      HeldIsLiveUnlessRemoved(run, steps, m, n - 1, k, id);
      EveryRunKeepsInv(run, steps, n - 1);
      assert StepAt(run, steps, n - 1);
      EntryGoesOnlyByRemoval(run[n - 1], steps[n - 1], k, id);
      hide Apply;
      if k !in run[n].caches {
        AtomicGcRemovesOnlyUnused(run, steps, n - 1, k);
      }
    }
  }

  lemma ReaderOfUsedCacheIsLive(run: seq<State>, steps: seq<Step>, m: nat, n: nat, w: nat)
    requires IsRun(run, steps) && CollectsAtomically(run, steps)
    requires m < n < |run| && (steps[m] == Lookup(w) || steps[m] == Recheck(w))
    requires w in run[m + 1].calls && HasCache(run[m + 1].calls[w])
    requires forall x | m < x <= n :: IsCacheUsed(run[x].stored, run[m + 1].calls[w].key)
    ensures run[m + 1].calls[w].id in run[n].live
  {
    var c := run[m + 1].calls[w];
    EveryRunKeepsInv(run, steps, m);
    assert StepAt(run, steps, m);
    CallFindsItsCache(run[m], steps[m], w);
    UsedCacheStaysLive(run, steps, m + 1, n, c.key, c.id);
  }
}
