/**
 The calls of `watchTargetAndGetReader` and the turns of the GC loop as code on shared fields. Between two critical
 sections the others may take any steps; each method takes the fields along a path of the state machine.
 */
module CacheCode {
  import opened Options
  import opened Api
  import opened Keys
  import opened Indexing
  import opened Caches
  import opened CacheFaults

  // == Paths ==

  /** Some steps lead from one state to the other. */
  ghost predicate Reaches(s: State, s': State) {
    exists steps: seq<Step> :: Follows(s, steps, s')
  }

  ghost predicate Follows(s: State, steps: seq<Step>, s': State)
    decreases |steps|
  {
    if steps == [] then s == s'
    else Enabled(s, steps[0]) && Follows(Apply(s, steps[0]), steps[1..], s')
  }

  lemma Stays(s: State)
    ensures Reaches(s, s)
  {
    assert Follows(s, [], s);
  }

  lemma {:induction false} FollowsOn(s: State, before: seq<Step>, middle: State, after: seq<Step>, s': State)
    requires Follows(s, before, middle) && Follows(middle, after, s')
    ensures Follows(s, before + after, s')
    decreases |before|
  {
    if before == [] {
      assert before + after == after;
    } else {
      assert (before + after)[1..] == before[1..] + after;
      FollowsOn(Apply(s, before[0]), before[1..], middle, after, s');
    }
  }

  lemma Through(s: State, middle: State, s': State)
    requires Reaches(s, middle) && Reaches(middle, s')
    ensures Reaches(s, s')
  {
    var before :| Follows(s, before, middle);
    var after :| Follows(middle, after, s');
    FollowsOn(s, before, middle, after, s');
  }

  lemma Takes(s: State, step: Step)
    requires Enabled(s, step)
    ensures Reaches(s, Apply(s, step))
  {
    assert [step][1..] == [] && Follows(Apply(s, step), [], Apply(s, step));
    assert Follows(s, [step], Apply(s, step));
  }

  lemma MakerInstallsOne(s: State, w: nat)
    requires Inv(s) && Enabled(s, Handle(w))
    ensures Apply(s, Handle(w)).handlers[s.calls[w].id] == 1
  {
  }

  // == The fields ==

  /** What a call asks of the world: a client configuration, an informer, and that the handler can be added. */
  datatype Cluster = Cluster(config: bool, informer: bool, handler: bool)

  /** How a turn of the GC loop ends. */
  datatype Turn = Requeued | Removed | Failed

  class Shared {
    var cachesMap: map<CacheKey, nat>
    var live: set<nat>
    var next: nat
    var handlers: multiset<nat>
    var queue: Queue
    var stored: set<Pipeline>
    ghost var state: State

    /** The fields are those of a state the invariants hold in. */
    ghost predicate Valid()
      reads this
    {
      && state.caches == cachesMap && state.live == live && state.next == next
      && state.handlers == handlers && state.queue == queue && state.stored == stored
      && Inv(state)
    }

    constructor ()
      ensures Valid() && state == INITIAL
    {
      cachesMap, live, next, handlers, stored := map[], {}, 0, multiset{}, {};
      queue := Queue([], {}, {}, {});
      state := INITIAL;
    }

    /** The others run: the caller knows no more than that its call `w` stays where it is. */
    method OthersRun(w: nat, ghost from: State)
      requires Valid() && Reaches(from, state)
      modifies this
      ensures Valid() && Reaches(from, state)
      ensures (w in state.calls) == (w in old(state).calls)
      ensures w in state.calls ==> state.calls[w] == old(state).calls[w]
    {
    }

    /** The others run, but not the GC. */
    method CallsRun(ghost from: State)
      requires Valid() && Reaches(from, state)
      modifies this
      ensures Valid() && Reaches(from, state) && state.gc == old(state).gc
    {
    }

    /** The abstract state takes the step that the fields have just taken. */
    ghost method Step(step: Step, from: State)
      requires Inv(state) && Enabled(state, step) && Reaches(from, state)
      modifies this`state
      ensures state == Apply(old(state), step) && Inv(state) && Reaches(from, state)
    {
      StepKeepsInv(state, step);
      Takes(state, step);
      Through(from, state, Apply(state, step));
      state := Apply(state, step);
    }

    /** The locked re-check: `cacheFound` is assigned again, so only one call makes and starts the cache. */
    method Recheck(w: nat, key: CacheKey, ghost from: State) returns (id: nat, cacheFound: bool)
      requires Valid() && Reaches(from, state) && w in state.calls && state.calls[w] == Building(key)
      modifies this
      ensures Valid() && Reaches(from, state)
      ensures w in state.calls && state.calls[w] == Registering(key, id, !cacheFound)
      ensures Find(state, key) == Some(id)
    {
      hide Inv, Reaches;
      cacheFound := key in cachesMap;
      if !cacheFound {
        cachesMap := cachesMap[key := next];
        live := live + {next};
        next := next + 1;
      }
      id := cachesMap[key];
      Step(Caches.Recheck(w), from);
    }

    /**
     One call, from its first lookup to its last; `id` is the incarnation behind the reader it returns, and `missed`
     whether the first lookup found no entry. Only then is a client configuration needed.
     */
    method WatchTarget(w: nat, key: CacheKey, cluster: Cluster)
      returns (ok: bool, id: nat, created: bool, ghost missed: bool)
      requires Valid() && w !in state.calls
      modifies this
      ensures Valid() && Reaches(old(state), state) && w !in state.calls
      ensures if missed then WasAt(old(state), state, w, Building(key), None)
              else WasAt(old(state), state, w, Informing(key, id, false), Some(id))
      ensures ok <==> (missed ==> cluster.config) && cluster.informer && (created ==> cluster.handler)
      ensures created ==> missed && cluster.config
      ensures !missed || cluster.config ==> WasEntry(old(state), state, key, id)
      ensures ok && created ==> state.handlers[id] == 1
      ensures !ok && created ==> Deaf(state, id)
    {
      hide Inv, Reaches, Deaf;
      ghost var start := state;
      Stays(start);
      id, created := 0, false;
      Step(Enter(w, key), start);
      OthersRun(w, start);
      var cacheFound := key in cachesMap;
      if cacheFound {
        id := cachesMap[key];
      }
      Step(Lookup(w), start);
      missed := !cacheFound;
      ghost var entered, looked := state, state;
      Stays(looked);
      if !cacheFound {
        OthersRun(w, looked);
        if !cluster.config {
          Step(Fail(w), looked);
          Through(start, looked, state);
          return false, id, created, missed;
        }
        id, cacheFound := Recheck(w, key, looked);
        created := !cacheFound;
        entered := state;
        Stays(entered);
        Through(start, looked, entered);
        OthersRun(w, entered);
        queue := queue.Add(key);
        Step(Register(w), entered);
      }
      Stays(entered);
      OthersRun(w, entered);
      ok := Serve(w, key, id, created, cluster, entered);
      Through(looked, entered, state);
      Through(start, looked, state);
      Through(start, entered, state);
    }

    /** The rest of a call that has a cache: its informer, and the event handler if it made the cache. */
    method Serve(w: nat, key: CacheKey, id: nat, created: bool, cluster: Cluster, ghost from: State)
      returns (ok: bool)
      requires Valid() && Reaches(from, state) && w in state.calls && state.calls[w] == Informing(key, id, created)
      modifies this
      ensures Valid() && Reaches(from, state) && w !in state.calls
      ensures ok <==> cluster.informer && (created ==> cluster.handler)
      ensures ok && created ==> state.handlers[id] == 1
      ensures !ok && created ==> Deaf(state, id)
    {
      hide Inv, Reaches, Deaf;
      if !cluster.informer {
        if created {
          FailingMakerLeavesDeaf(state, w);
        }
        Step(Fail(w), from);
        return false;
      }
      Step(Inform(w), from);
      if created {
        OthersRun(w, from);
        if !cluster.handler {
          FailingMakerLeavesDeaf(state, w);
          Step(Fail(w), from);
          return false;
        }
        MakerInstallsOne(state, w);
        handlers := handlers + multiset{id};
        Step(Handle(w), from);
      }
      return true;
    }

    /** One turn of the GC loop; `listing` is whether the stored pipelines could be listed. */
    method Collect(listing: bool) returns (turn: Turn)
      requires Valid() && state.gc.Taking? && queue.order != []
      modifies this
      ensures Valid() && Reaches(old(state), state) && state.gc.Taking?
      ensures turn.Failed? <==> !listing
      ensures var key := old(queue.order[0]);
        match turn
        case Requeued => key in queue.delayed && WasUsed(old(state), state, key, true)
        case Removed => key !in cachesMap && WasUsed(old(state), state, key, false)
        case Failed => Stuck(state, key)
    {
      hide Inv, Reaches, IsCacheUsed, Stuck;
      ghost var start := state;
      Stays(start);
      var key := queue.order[0];
      queue := queue.Get();
      Step(GcTake, start);
      CallsRun(start);
      if !listing {
        StuckAfterStep(state, GcFails, key);
        Step(GcFails, start);
        return Failed;
      }
      ghost var checked := state;
      Stays(checked);
      if IsCacheUsed(stored, key) {
        Step(GcSeesUsed, checked);
        Requeue(key, checked);
        turn := Requeued;
      } else {
        Step(GcSeesUnused, checked);
        Drop(key, checked);
        turn := Removed;
      }
      Through(start, checked, state);
    }

    method Requeue(key: CacheKey, ghost from: State)
      requires Valid() && Reaches(from, state) && state.gc.Keeping? && state.gc.key == key
      modifies this
      ensures Valid() && Reaches(from, state) && state.gc.Taking? && key in queue.delayed
    {
      hide Inv, Reaches;
      CallsRun(from);
      queue := queue.Done(key);
      Step(GcKeepDone, from);
      CallsRun(from);
      queue := queue.AddLater(key);
      Step(GcRequeue, from);
    }

    method Drop(key: CacheKey, ghost from: State)
      requires Valid() && Reaches(from, state) && state.gc.Dropping? && state.gc.key == key
      modifies this
      ensures Valid() && Reaches(from, state) && state.gc.Taking? && key !in cachesMap
    {
      hide Inv, Reaches;
      CallsRun(from);
      queue := queue.Done(key);
      Step(GcDropDone, from);
      CallsRun(from);
      RemoveCache(key, from);
    }

    method RemoveCache(key: CacheKey, ghost from: State)
      requires Valid() && Reaches(from, state) && state.gc.Removing? && state.gc.key == key
      modifies this
      ensures Valid() && Reaches(from, state) && state.gc.Taking? && key !in cachesMap
      ensures live == if key in old(cachesMap) then old(live) - {old(cachesMap)[key]} else old(live)
    {
      if key in cachesMap {
        live := live - {cachesMap[key]};
        cachesMap := cachesMap - {key};
      }
      Step(GcRemove, from);
    }
  }

  /** At some point between the two states, the call was where `c` says, and this was the entry under its key. */
  ghost predicate WasAt(s: State, s': State, w: nat, c: Call, entry: Option<nat>) {
    exists middle :: Reaches(s, middle) && Reaches(middle, s')
      && w in middle.calls && middle.calls[w] == c && Find(middle, c.key) == entry
  }

  /** At some point between the two states, `id` was the entry under the key. */
  ghost predicate WasEntry(s: State, s': State, key: CacheKey, id: nat) {
    exists middle :: Reaches(s, middle) && Reaches(middle, s') && Find(middle, key) == Some(id)
  }

  /** At some point between the two states, the key was in use by a stored pipeline, or was not. */
  ghost predicate WasUsed(s: State, s': State, key: CacheKey, used: bool) {
    exists middle :: Reaches(s, middle) && Reaches(middle, s') && IsCacheUsed(middle.stored, key) == used
  }
}
