/**
 Target caches and their garbage collector. Any number of calls of `watchTargetAndGetReader` interleave with the
 GC loop; each step is one critical section, one queue operation, or one call out.
 */
module Caches {
  import opened Options
  import opened Api
  import opened Keys
  import opened Indexing

  // == The work queue (client-go semantics) ==

  /** `order` is what Get takes from; a dirty key that is being processed is queued again by Done. */
  datatype Queue = Queue(
    order: seq<CacheKey>,
    dirty: set<CacheKey>,
    processing: set<CacheKey>,
    delayed: set<CacheKey>)
  {

    function Add(k: CacheKey): Queue {
      if k in dirty then this
      else if k in processing then this.(dirty := dirty + {k})
      else this.(dirty := dirty + {k}, order := order + [k])
    }

    function Get(): Queue
      requires order != []
    {
      this.(order := order[1..], dirty := dirty - {order[0]}, processing := processing + {order[0]})
    }

    function Done(k: CacheKey): Queue {
      if k in dirty then this.(processing := processing - {k}, order := order + [k])
      else this.(processing := processing - {k})
    }

    function AddLater(k: CacheKey): Queue {
      this.(delayed := delayed + {k})
    }

    function Fire(k: CacheKey): Queue {
      this.(delayed := delayed - {k}).Add(k)
    }

    ghost predicate Valid() {
      && (forall i, j :: 0 <= i < j < |order| ==> order[i] != order[j])
      && (forall k :: k in order ==> k in dirty && k !in processing)
      && (forall k :: k in dirty ==> k in order || k in processing)
    }

    /** The queue will hand the key out, now or later, or has handed it out and not got it back. */
    predicate Tracks(k: CacheKey) {
      k in order || k in delayed || k in processing
    }
  }

  // == State ==

  /** A call in progress; `id` is the incarnation of the cache it got, `created` whether it made it. */
  datatype Call =
    | Starting(key: CacheKey)
    | Building(key: CacheKey)
    | Registering(key: CacheKey, id: nat, created: bool)
    | Informing(key: CacheKey, id: nat, created: bool)
    | Handling(key: CacheKey, id: nat)

  /** Where the GC loop is; `seen` is the incarnation that was in the map when the key was taken. */
  datatype Gc =
    | Taking
    | Checking(key: CacheKey, seen: Option<nat>)
    | Keeping(key: CacheKey, seen: Option<nat>)
    | Requeueing(key: CacheKey, seen: Option<nat>)
    | Dropping(key: CacheKey, seen: Option<nat>)
    | Removing(key: CacheKey, seen: Option<nat>)

  /** `live` are the contexts not cancelled, `handlers` the event handlers installed, per incarnation. */
  datatype State = State(
    caches: map<CacheKey, nat>,
    live: set<nat>,
    next: nat,
    handlers: multiset<nat>,
    queue: Queue,
    calls: map<nat, Call>,
    gc: Gc,
    stored: set<Pipeline>)

  const INITIAL := State(map[], {}, 0, multiset{}, Queue([], {}, {}, {}), map[], Taking, {})

  // == Steps ==

  datatype Step =
    | Store(stored: set<Pipeline>)
    | Enter(w: nat, key: CacheKey)
    | Lookup(w: nat)
    | Fail(w: nat)
    | Recheck(w: nat)
    | Register(w: nat)
    | Inform(w: nat)
    | Handle(w: nat)
    | FireTimer(key: CacheKey)
    | GcTake
    | GcSeesUsed
    | GcSeesUnused
    | GcFails
    | GcKeepDone
    | GcRequeue
    | GcDropDone
    | GcRemove

  predicate Enabled(s: State, step: Step) {
    match step
    case Store(_) => true
    case Enter(w, _) => w !in s.calls
    case Lookup(w) => w in s.calls && s.calls[w].Starting?
    case Fail(w) => w in s.calls && (s.calls[w].Building? || s.calls[w].Informing? || s.calls[w].Handling?)
    case Recheck(w) => w in s.calls && s.calls[w].Building?
    case Register(w) => w in s.calls && s.calls[w].Registering?
    case Inform(w) => w in s.calls && s.calls[w].Informing?
    case Handle(w) => w in s.calls && s.calls[w].Handling?
    case FireTimer(k) => k in s.queue.delayed
    case GcTake => s.gc.Taking? && s.queue.order != []
    case GcSeesUsed => s.gc.Checking? && IsCacheUsed(s.stored, s.gc.key)
    case GcSeesUnused => s.gc.Checking? && !IsCacheUsed(s.stored, s.gc.key)
    case GcFails => s.gc.Checking?
    case GcKeepDone => s.gc.Keeping?
    case GcRequeue => s.gc.Requeueing?
    case GcDropDone => s.gc.Dropping?
    case GcRemove => s.gc.Removing?
  }

  function Find(s: State, k: CacheKey): Option<nat> {
    if k in s.caches then Some(s.caches[k]) else None
  }

  /** The locked re-check: takes the entry another call has made meanwhile, or makes one. */
  function FindOrCreate(s: State, k: CacheKey): (State, nat, bool) {
    if k in s.caches then (s, s.caches[k], false)
    else (s.(caches := s.caches[k := s.next], live := s.live + {s.next}, next := s.next + 1), s.next, true)
  }

  function WithoutCache(s: State, k: CacheKey): State {
    if k in s.caches then s.(caches := s.caches - {k}, live := s.live - {s.caches[k]}) else s
  }

  function SetCall(s: State, w: nat, call: Call): State {
    s.(calls := s.calls[w := call])
  }

  function EndCall(s: State, w: nat): State {
    s.(calls := s.calls - {w})
  }

  function Apply(s: State, step: Step): State
    requires Enabled(s, step)
  {
    match step
    case Store(stored) => s.(stored := stored)
    case Enter(w, k) => SetCall(s, w, Starting(k))
    case Lookup(w) =>
      var k := s.calls[w].key;
      SetCall(s, w, match Find(s, k) case Some(id) => Informing(k, id, false) case None => Building(k))
    case Fail(w) => EndCall(s, w)
    case Recheck(w) =>
      var k := s.calls[w].key;
      var (s', id, created) := FindOrCreate(s, k);
      SetCall(s', w, Registering(k, id, created))
    case Register(w) =>
      var c := s.calls[w];
      SetCall(s.(queue := s.queue.Add(c.key)), w, Informing(c.key, c.id, c.created))
    case Inform(w) =>
      var c := s.calls[w];
      if c.created then SetCall(s, w, Handling(c.key, c.id)) else EndCall(s, w)
    case Handle(w) => EndCall(s, w).(handlers := s.handlers + multiset{s.calls[w].id})
    case FireTimer(k) => s.(queue := s.queue.Fire(k))
    case GcTake => s.(queue := s.queue.Get(), gc := Checking(s.queue.order[0], Find(s, s.queue.order[0])))
    case GcSeesUsed => s.(gc := Keeping(s.gc.key, s.gc.seen))
    case GcSeesUnused => s.(gc := Dropping(s.gc.key, s.gc.seen))
    case GcFails => s.(gc := Taking)
    case GcKeepDone => s.(queue := s.queue.Done(s.gc.key), gc := Requeueing(s.gc.key, s.gc.seen))
    case GcRequeue => s.(queue := s.queue.AddLater(s.gc.key), gc := Taking)
    case GcDropDone => s.(queue := s.queue.Done(s.gc.key), gc := Removing(s.gc.key, s.gc.seen))
    case GcRemove => WithoutCache(s, s.gc.key).(gc := Taking)
  }

  // == Invariants ==

  predicate HasCache(c: Call) {
    c.Registering? || c.Informing? || c.Handling?
  }

  /** The call made its incarnation and has not installed the event handler yet. */
  predicate IsMaker(c: Call) {
    ((c.Registering? || c.Informing?) && c.created) || c.Handling?
  }

  /** A worker between insertion and registration of the entry under `k`. */
  ghost predicate HeldByMaker(s: State, k: CacheKey)
    requires k in s.caches
  {
    exists w :: w in s.calls && s.calls[w] == Registering(k, s.caches[k], true)
  }

  predicate HeldByGc(s: State, k: CacheKey) {
    !s.gc.Taking? && s.gc.key == k
  }

  /** No cache is lost to the GC. */
  ghost predicate NothingLost(s: State) {
    forall k :: k in s.caches ==> s.queue.Tracks(k) || HeldByGc(s, k) || HeldByMaker(s, k)
  }

  /** The contexts that are not cancelled are exactly the entries of the map, one per key. */
  ghost predicate LifetimesMatch(s: State) {
    && (forall k :: k in s.caches ==> s.caches[k] in s.live)
    && (forall id :: id in s.live ==> id < s.next && exists k :: k in s.caches && s.caches[k] == id)
    && (forall k, k' :: k in s.caches && k' in s.caches && s.caches[k] == s.caches[k'] ==> k == k')
  }

  /** Each incarnation has one maker at most, and one event handler at most. */
  ghost predicate OneHandlerEach(s: State) {
    && (forall id: nat :: s.handlers[id] <= 1 && (s.handlers[id] == 1 ==> id < s.next))
    && (forall w :: w in s.calls && HasCache(s.calls[w]) ==> s.calls[w].id < s.next)
    && (forall w :: w in s.calls && IsMaker(s.calls[w]) ==> s.handlers[s.calls[w].id] == 0)
    && (forall w, w' | w in s.calls && w' in s.calls && w != w' && IsMaker(s.calls[w]) && IsMaker(s.calls[w']) ::
          s.calls[w].id != s.calls[w'].id)
  }

  /** While the GC holds a key it found mapped, the entry stays the one it saw. */
  predicate SeenStays(s: State) {
    && (s.gc.Checking? || s.gc.Keeping? || s.gc.Dropping? ==> s.gc.key in s.queue.processing)
    && (s.gc.Requeueing? || s.gc.Removing? ==> s.gc.key !in s.queue.processing)
    && (!s.gc.Taking? && s.gc.seen.Some? ==> Find(s, s.gc.key) == s.gc.seen)
  }

  ghost predicate Inv(s: State) {
    s.queue.Valid() && NothingLost(s) && LifetimesMatch(s) && OneHandlerEach(s) && SeenStays(s)
  }

  // == Preservation ==

  lemma AddKeepsQueue(q: Queue, k: CacheKey)
    requires q.Valid()
    ensures q.Add(k).Valid()
    ensures q.Add(k).Tracks(k)
    ensures forall k' :: q.Tracks(k') ==> q.Add(k).Tracks(k')
  {
  }

  lemma FireKeepsQueue(q: Queue, k: CacheKey)
    requires q.Valid()
    ensures q.Fire(k).Valid()
    ensures forall k' :: q.Tracks(k') ==> q.Fire(k).Tracks(k')
  {
    AddKeepsQueue(q.(delayed := q.delayed - {k}), k);
  }

  lemma GetKeepsQueue(q: Queue)
    requires q.Valid() && q.order != []
    ensures q.Get().Valid() && q.order[0] in q.Get().processing
    ensures forall k' :: q.Tracks(k') ==> q.Get().Tracks(k')
  {
    assert forall k :: k in q.order ==> k == q.order[0] || k in q.order[1..];
  }

  lemma DoneKeepsQueue(q: Queue, k: CacheKey)
    requires q.Valid() && k in q.processing
    ensures q.Done(k).Valid()
    ensures forall k' :: k' != k && q.Tracks(k') ==> q.Done(k).Tracks(k')
  {
  }

  lemma QueueStaysValid(s: State, step: Step)
    requires Inv(s) && Enabled(s, step)
    ensures Apply(s, step).queue.Valid()
  {
    match step
    case Register(w) => AddKeepsQueue(s.queue, s.calls[w].key);
    case FireTimer(k) => FireKeepsQueue(s.queue, k);
    case GcTake => GetKeepsQueue(s.queue);
    case GcKeepDone => DoneKeepsQueue(s.queue, s.gc.key);
    case GcDropDone => DoneKeepsQueue(s.queue, s.gc.key);
    case _ =>
  }

  lemma MakerStays(s: State, step: Step, k: CacheKey)
    requires Inv(s) && Enabled(s, step) && k in s.caches && HeldByMaker(s, k)
    requires !(step.Register? && s.calls[step.w] == Registering(k, s.caches[k], true))
    ensures var s' := Apply(s, step); k in s'.caches && s'.caches[k] == s.caches[k] ==> HeldByMaker(s', k)
  {
    var s' := Apply(s, step);
    var w :| w in s.calls && s.calls[w] == Registering(k, s.caches[k], true);
    if k in s'.caches && s'.caches[k] == s.caches[k] {
      assert w in s'.calls && s'.calls[w] == s.calls[w];
    }
  }

  lemma NothingGetsLost(s: State, step: Step)
    requires Inv(s) && Enabled(s, step)
    ensures NothingLost(Apply(s, step))
  {
    var s' := Apply(s, step);
    forall k | k in s'.caches
      ensures s'.queue.Tracks(k) || HeldByGc(s', k) || HeldByMaker(s', k)
    {
      if k !in s.caches {
        assert step.Recheck?;
        assert s'.calls[step.w] == Registering(k, s'.caches[k], true);
      } else {
        assert s'.caches[k] == s.caches[k];
        match step {
          case Register(w) => AddKeepsQueue(s.queue, s.calls[w].key);
          case FireTimer(k') => FireKeepsQueue(s.queue, k');
          case GcTake => GetKeepsQueue(s.queue);
          case GcKeepDone => DoneKeepsQueue(s.queue, s.gc.key);
          case GcDropDone => DoneKeepsQueue(s.queue, s.gc.key);
          case _ =>
        }
        if HeldByMaker(s, k) && !(step.Register? && s.calls[step.w] == Registering(k, s.caches[k], true)) {
          MakerStays(s, step, k);
        }
      }
    }
  }

  lemma CreatingKeepsLifetimes(s: State, k: CacheKey)
    requires LifetimesMatch(s)
    ensures LifetimesMatch(FindOrCreate(s, k).0)
  {
    var s' := FindOrCreate(s, k).0;
    forall id | id in s'.live
      ensures id < s'.next && exists k' :: k' in s'.caches && s'.caches[k'] == id
    {
      if id in s.live {
        var k' :| k' in s.caches && s.caches[k'] == id;
        assert k' in s'.caches && s'.caches[k'] == id;
      } else {
        assert s'.caches[k] == id;
      }
    }
  }

  lemma RemovingKeepsLifetimes(s: State, k: CacheKey)
    requires LifetimesMatch(s)
    ensures LifetimesMatch(WithoutCache(s, k))
  {
    var s' := WithoutCache(s, k);
    forall id | id in s'.live
      ensures exists k' :: k' in s'.caches && s'.caches[k'] == id
    {
      var k' :| k' in s.caches && s.caches[k'] == id;
      assert k' in s'.caches && s'.caches[k'] == id;
    }
  }

  lemma LifetimesStayMatched(s: State, step: Step)
    requires LifetimesMatch(s) && Enabled(s, step)
    ensures LifetimesMatch(Apply(s, step))
  {
    var s' := Apply(s, step);
    match step
    case Recheck(w) =>
      CreatingKeepsLifetimes(s, s.calls[w].key);
      SameLifetimes(FindOrCreate(s, s.calls[w].key).0, s');
    case GcRemove =>
      RemovingKeepsLifetimes(s, s.gc.key);
      SameLifetimes(WithoutCache(s, s.gc.key), s');
    case _ => SameLifetimes(s, s');
  }

  lemma SameLifetimes(s: State, s': State)
    requires LifetimesMatch(s) && s'.caches == s.caches && s'.live == s.live && s'.next == s.next
    ensures LifetimesMatch(s')
  {
  }

  /** A call may go on to `c` if it made that incarnation, or does not claim to have. */
  lemma SetCallKeepsHandlers(s: State, w: nat, c: Call)
    requires OneHandlerEach(s)
    requires HasCache(c) ==> c.id < s.next
    requires IsMaker(c) ==> s.handlers[c.id] == 0
    requires IsMaker(c) ==> forall w' | w' in s.calls && w' != w && IsMaker(s.calls[w']) :: s.calls[w'].id != c.id
    ensures OneHandlerEach(SetCall(s, w, c))
  {
  }

  lemma EndCallKeepsHandlers(s: State, w: nat)
    requires OneHandlerEach(s)
    ensures OneHandlerEach(EndCall(s, w))
  {
  }

  lemma HandleKeepsHandlers(s: State, w: nat)
    requires OneHandlerEach(s) && w in s.calls && s.calls[w].Handling?
    ensures OneHandlerEach(Apply(s, Handle(w)))
  {
  }

  lemma SameHandlers(s: State, s': State)
    requires OneHandlerEach(s) && s'.handlers == s.handlers && s'.calls == s.calls && s'.next >= s.next
    ensures OneHandlerEach(s')
  {
  }

  lemma HandlersStaySingle(s: State, step: Step)
    requires Inv(s) && Enabled(s, step)
    ensures OneHandlerEach(Apply(s, step))
  {
    var s' := Apply(s, step);
    match step
    case Enter(w, k) => SetCallKeepsHandlers(s, w, Starting(k));
    case Lookup(w) => SetCallKeepsHandlers(s, w, s'.calls[w]);
    case Fail(w) => EndCallKeepsHandlers(s, w);
    case Recheck(w) =>
      var found := FindOrCreate(s, s.calls[w].key).0;
      SameHandlers(s, found);
      SetCallKeepsHandlers(found, w, s'.calls[w]);
    case Register(w) =>
      var queued := s.(queue := s'.queue);
      SameHandlers(s, queued);
      SetCallKeepsHandlers(queued, w, s'.calls[w]);
    case Inform(w) =>
      if s.calls[w].created {
        SetCallKeepsHandlers(s, w, s'.calls[w]);
      } else {
        EndCallKeepsHandlers(s, w);
      }
    case Handle(w) => HandleKeepsHandlers(s, w);
    case _ => SameHandlers(s, s');
  }

  lemma SeenKeepsStaying(s: State, step: Step)
    requires Inv(s) && Enabled(s, step)
    ensures SeenStays(Apply(s, step))
  {
    var s' := Apply(s, step);
    match step
    case Recheck(w) => assert forall k :: k in s.caches ==> Find(s', k) == Find(s, k);
    case Register(w) => assert s'.queue.processing == s.queue.processing;
    case FireTimer(k) => assert s'.queue.processing == s.queue.processing;
    case GcTake =>
    case GcSeesUsed =>
    case GcSeesUnused =>
    case GcKeepDone =>
    case GcDropDone =>
    case _ => assert s'.gc.Taking? || (s'.gc == s.gc && s'.queue == s.queue && s'.caches == s.caches);
  }

  lemma StepKeepsInv(s: State, step: Step)
    requires Inv(s) && Enabled(s, step)
    ensures Inv(Apply(s, step))
  {
    QueueStaysValid(s, step);
    NothingGetsLost(s, step);
    LifetimesStayMatched(s, step);
    HandlersStaySingle(s, step);
    SeenKeepsStaying(s, step);
  }

  // == Runs ==

  ghost predicate IsRun(run: seq<State>, steps: seq<Step>) {
    && |run| == |steps| + 1 && run[0] == INITIAL.(stored := run[0].stored)
    && forall n | 0 <= n < |steps| :: StepAt(run, steps, n)
  }

  ghost predicate StepAt(run: seq<State>, steps: seq<Step>, n: int) {
    0 <= n < |steps| == |run| - 1 && Enabled(run[n], steps[n]) && run[n + 1] == Apply(run[n], steps[n])
  }

  /** In every interleaving: nothing lost, contexts match the map, one handler each. */
  lemma {:induction false} EveryRunKeepsInv(run: seq<State>, steps: seq<Step>, n: nat)
    requires IsRun(run, steps) && n < |run|
    ensures Inv(run[n])
  {
    if n > 0 {
      EveryRunKeepsInv(run, steps, n - 1);
      assert StepAt(run, steps, n - 1);
      StepKeepsInv(run[n - 1], steps[n - 1]);
    }
  }

  /** An entry stays as it is, or it is gone and its context, and no other, is cancelled. */
  lemma EntriesStayOrAreCancelled(s: State, step: Step)
    requires LifetimesMatch(s) && SeenStays(s) && Enabled(s, step)
    ensures forall k :: k in s.caches ==>
      Find(Apply(s, step), k) == Find(s, k) || (step == GcRemove && k == s.gc.key && k !in Apply(s, step).caches)
    ensures forall id :: id in s.live && id !in Apply(s, step).live ==>
      step == GcRemove && Find(s, s.gc.key) == Some(id)
    ensures step == GcRemove && s.gc.seen.Some? ==> Apply(s, step).live == s.live - {s.gc.seen.value}
    ensures forall id :: id in Apply(s, step).live && id !in s.live ==> id >= s.next
  {
    match step
    case Recheck(w) =>
      assert forall k :: k in s.caches ==> Find(FindOrCreate(s, s.calls[w].key).0, k) == Find(s, k);
    case GcRemove =>
    case _ =>
      assert Apply(s, step).caches == s.caches && Apply(s, step).live == s.live;
  }
}
