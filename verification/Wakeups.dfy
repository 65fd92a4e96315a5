/** Every object a reconciliation reads is indexed, so a change that alters its outcome enqueues the pipeline. */
module Wakeups {
  import opened Options
  import opened Unstructured
  import opened Conditions
  import opened Api
  import opened Keys
  import opened Indexing
  import opened Reconciler
  import opened Publication

  /** Two worlds a pipeline cannot tell apart by its indexes. */
  ghost predicate AgreeOnIndexed(p: Pipeline, w: World, w': World) {
    && (forall c | ObjectKeyString(c) in ClusterKeys(GITOPS_CLUSTER, p) :: w.cluster(c) == w'.cluster(c))
    && (forall k | CacheKeyString(k) in CacheKeys(p) :: w.reader(k) == w'.reader(k))
    && (forall k: CacheKey, o | TargetIndexKey(k.cluster, k.gvk, o) in ApplicationKeys(p) ::
          w.app(k, o) == w'.app(k, o))
  }

  predicate UnindexedCluster(p: Pipeline, t: Target) {
    t.clusterRef.Some? && ObjectKeyString(ClusterKey(p, t.clusterRef.value)) !in ClusterKeys(GITOPS_CLUSTER, p)
  }

  /** Each cluster reference is indexed as a GitopsCluster, and each target names its namespace. */
  predicate Covered(p: Pipeline) {
    && (forall t | t in Targets(p) :: !UnindexedCluster(p, t))
    && (AppGvk(p.appRef).Some? ==> forall t | t in Targets(p) :: t.ns != "")
  }

  /**
   References of kind GitopsCluster and named namespaces imply coverage. The CRD schema enforces the kind, but of the
   namespace of a target only that the field is there: it admits an empty one, and then a change can be missed.
   */
  lemma SchemaImpliesCovered(p: Pipeline)
    requires forall t | t in Targets(p) :: t.ns != ""
    requires forall t | t in Targets(p) && t.clusterRef.Some? :: t.clusterRef.value.kind == GITOPS_CLUSTER
    ensures Covered(p)
  {
    forall t | t in Targets(p) && t.clusterRef.Some?
      ensures !UnindexedCluster(p, t)
    {
      assert IndexedCluster(p, t) == ClusterKey(p, t.clusterRef.value);
    }
  }

  /** The cache a target is read from is among the indexed caches of its pipeline. */
  lemma ReaderKeyIsIndexed(p: Pipeline, t: Target)
    requires t in Targets(p) && AppGvk(p.appRef).Some?
    ensures CacheKeyString(CacheKey(ReadCluster(p, t), AppGvk(p.appRef).value)) in CacheKeys(p)
  {
    assert IndexedCluster(p, t) == ReadCluster(p, t);
    var fn := (c: ObjectKey, g: Gvk, o: ObjectKey) => ClusterCacheKey(c, g, o);
    assert fn(IndexedCluster(p, t), AppGvk(p.appRef).value, IndexedTarget(p, t)) in TargetKeys(fn, p);
    assert CacheKeys(p) == TargetKeys(fn, p);
  }

  lemma ApplicationIsIndexed(p: Pipeline, t: Target)
    requires t in Targets(p) && AppGvk(p.appRef).Some? && t.ns != ""
    ensures TargetIndexKey(ReadCluster(p, t), AppGvk(p.appRef).value, ReadKey(p, t)) in ApplicationKeys(p)
  {
    assert IndexedCluster(p, t) == ReadCluster(p, t) && IndexedTarget(p, t) == ReadKey(p, t);
    var fn := (c: ObjectKey, g: Gvk, o: ObjectKey) => TargetIndexKey(c, g, o);
    assert fn(IndexedCluster(p, t), AppGvk(p.appRef).value, IndexedTarget(p, t)) in TargetKeys(fn, p);
    assert ApplicationKeys(p) == TargetKeys(fn, p);
  }

  lemma SameTargetResult(p: Pipeline, t: Target, w: World, w': World)
    requires Covered(p) && AgreeOnIndexed(p, w, w') && t in Targets(p)
    ensures CheckTarget(p, t, w) == CheckTarget(p, t, w')
  {
    if AppGvk(p.appRef).Some? {
      ReaderKeyIsIndexed(p, t);
      ApplicationIsIndexed(p, t);
    }
  }

  lemma {:induction false} SameTargetResults(p: Pipeline, ts: seq<Target>, w: World, w': World)
    requires Covered(p) && AgreeOnIndexed(p, w, w') && forall t | t in ts :: t in Targets(p)
    ensures CheckTargets(p, ts, w) == CheckTargets(p, ts, w')
  {
    if ts != [] {
      SameTargetResults(p, ts[..|ts| - 1], w, w');
      SameTargetResult(p, ts[|ts| - 1], w, w');
    }
  }

  lemma {:induction false} SameCollection(p: Pipeline, envs: seq<Environment>, w: World, w': World)
    requires Covered(p) && AgreeOnIndexed(p, w, w') && forall env | env in envs :: env in p.environments
    ensures Collect(p, envs, w) == Collect(p, envs, w')
  {
    if envs != [] {
      SameCollection(p, envs[..|envs| - 1], w, w');
      SameTargetResults(p, envs[|envs| - 1].targets, w, w');
    }
  }

  lemma IndexedViewDeterminesOutcome(p: Pipeline, w: World, w': World, was: PipelineStatus, io: Io)
    requires Covered(p) && AgreeOnIndexed(p, w, w')
    ensures Reconciled(p, w, was, io) == Reconciled(p, w', was, io)
  {
    SameCollection(p, p.environments, w, w');
  }

  /** An event on a changed object that enqueues the pipeline, or a change of sync state of one of its caches. */
  ghost predicate Woken(p: Pipeline, stored: set<Pipeline>, w: World, w': World) {
    || (exists c :: w.cluster(c) != w'.cluster(c) && p in PipelinesForCluster(stored, c))
    || (exists k, o :: w.app(k, o) != w'.app(k, o) && p in PipelinesForApplication(stored, k.cluster, k.gvk, o))
    || (exists k :: w.reader(k) != w'.reader(k) && CacheKeyString(k) in CacheKeys(p))
  }

  lemma ChangedOutcomeWakes(p: Pipeline, stored: set<Pipeline>, w: World, w': World, was: PipelineStatus, io: Io)
    requires p in stored && Covered(p)
    requires Reconciled(p, w, was, io) != Reconciled(p, w', was, io)
    ensures Woken(p, stored, w, w')
  {
    if AgreeOnIndexed(p, w, w') {
      IndexedViewDeterminesOutcome(p, w, w', was, io);
      assert false;
    }
  }

  // == The hypothesis is exact ==

  ghost predicate NeverMisses(p: Pipeline) {
    forall w, w', was, io | AgreeOnIndexed(p, w, w') :: Reconciled(p, w, was, io) == Reconciled(p, w', was, io)
  }

  /** Names as the API server admits them, and an application type that can be read. */
  predicate WellFormed(p: Pipeline) {
    && !p.deleting && UniqueNames(p.environments)
    && ValidName(p.key.ns) && p.key.ns != "" && ValidName(p.appRef.name)
    && AppGvk(p.appRef).Some? && ValidGvk(AppGvk(p.appRef).value)
    && (forall t | t in Targets(p) :: ValidName(t.ns))
    && (forall t | t in Targets(p) && t.clusterRef.Some? ::
          ValidName(t.clusterRef.value.ns) && ValidName(t.clusterRef.value.name))
  }

  const READY_CLUSTER := ClusterFound([Condition(READY, TRUE, "", "")])

  /** A world in which every object a pipeline may ask for is there. */
  const ALL_THERE := World(_ => READY_CLUSTER, _ => Synced, (_, _) => AppFound(Null))

  const ANY_IO := Io(true, true, _ => false, true)
  const NO_STATUS := PipelineStatus(0, [], map[])

  /** The stored Ready condition tells whether some target cannot be read. */
  lemma ReadyTellsUnread(p: Pipeline, w: World)
    requires WellFormed(p) && Published(p, w, NO_STATUS).Some?
    ensures var ready := FindCondition(Reconciled(p, w, NO_STATUS, ANY_IO).stored.conditions, READY);
      ready.Some? && (ready.value.status == FALSE <==> SomeUnread(p, w))
  {
    KeepsReady(p, w);
    PublishedStatusIsFaithful(p, w, NO_STATUS);
  }

  ghost predicate SomeUnread(p: Pipeline, w: World) {
    exists k, i :: IsTarget(p, k, i) && ReadObject(p, p.environments[k].targets[i], w).None?
  }

  /** Changing whether one target can be read changes the published Ready condition. */
  lemma LosingATargetShows(p: Pipeline, k: int, i: int, w: World)
    requires WellFormed(p) && IsTarget(p, k, i) && Published(p, w, NO_STATUS).Some?
    requires ReadObject(p, p.environments[k].targets[i], w).None?
    ensures Reconciled(p, ALL_THERE, NO_STATUS, ANY_IO) != Reconciled(p, w, NO_STATUS, ANY_IO)
  {
    NothingAborts(p, ALL_THERE);
    ReadyTellsUnread(p, ALL_THERE);
    ReadyTellsUnread(p, w);
    assert !SomeUnread(p, ALL_THERE);
    assert SomeUnread(p, w);
  }

  /** The pending condition is another condition: the stored Ready condition is the published one. */
  lemma KeepsReady(p: Pipeline, w: World)
    requires !p.deleting && Published(p, w, NO_STATUS).Some?
    ensures FindCondition(Reconciled(p, w, NO_STATUS, ANY_IO).stored.conditions, READY)
         == FindCondition(Published(p, w, NO_STATUS).value.conditions, READY)
  {
    var s := Published(p, w, NO_STATUS).value;
    CollectCoversAll(p, p.environments, w);
    RemoveThenFind(s.conditions, PROMOTION_PENDING, READY);
    SetThenFind(s.conditions, PendingCondition(WAITING_FOR_REVISION), READY);
    SetThenFind(s.conditions, PendingCondition(WAITING_FOR_READY), READY);
  }

  lemma NothingAborts(p: Pipeline, w: World)
    requires UniqueNames(p.environments)
    requires forall c :: !w.cluster(c).ClusterFailed?
    requires forall k :: !w.reader(k).ReaderFailed?
    ensures Published(p, w, NO_STATUS).Some?
  {
    forall k | 0 <= k < |p.environments|
      ensures CheckTargets(p, p.environments[k].targets, w).Some?
    {
      CheckTargetsPointwise(p, p.environments[k].targets, w);
    }
    CollectPointwise(p, p.environments, w);
  }

  lemma TargetIndices(p: Pipeline, t: Target) returns (k: int, i: int)
    requires t in Targets(p)
    ensures IsTarget(p, k, i) && p.environments[k].targets[i] == t
  {
    var env :| env in p.environments && t in env.targets;
    k :| 0 <= k < |p.environments| && p.environments[k] == env;
    i :| 0 <= i < |env.targets| && env.targets[i] == t;
  }

  lemma UnindexedClusterIsMissed(p: Pipeline, t: Target)
    requires WellFormed(p) && t in Targets(p) && UnindexedCluster(p, t)
    ensures !NeverMisses(p)
  {
    var gone := ClusterKey(p, t.clusterRef.value);
    var w := ALL_THERE.(cluster := c => if c == gone then ClusterNotFound("") else READY_CLUSTER);
    assert AgreeOnIndexed(p, ALL_THERE, w);
    NothingAborts(p, w);
    var k, i := TargetIndices(p, t);
    LosingATargetShows(p, k, i, w);
  }

  lemma UnnamedNamespaceIsMissed(p: Pipeline, t: Target)
    requires WellFormed(p) && t in Targets(p) && t.ns == ""
    ensures !NeverMisses(p)
  {
    var gvk := AppGvk(p.appRef).value;
    var cache, app := CacheKey(ReadCluster(p, t), gvk), ReadKey(p, t);
    var w := ALL_THERE.(app := (k, o) => if k == cache && o == app then AppFailed("") else AppFound(Null));
    assert TargetIndexKey(cache.cluster, cache.gvk, app) !in ApplicationKeys(p) by {
      forall t' | t' in Targets(p)
        ensures TargetIndexKey(IndexedCluster(p, t'), gvk, IndexedTarget(p, t'))
             != TargetIndexKey(cache.cluster, gvk, app)
      {
        TargetIndexKeyInjective(IndexedCluster(p, t'), gvk, IndexedTarget(p, t'), cache.cluster, gvk, app);
      }
    }
    assert AgreeOnIndexed(p, ALL_THERE, w);
    NothingAborts(p, w);
    var k, i := TargetIndices(p, t);
    LosingATargetShows(p, k, i, w);
  }

  /** A well-formed pipeline misses no change exactly when its references are covered. */
  lemma NeverMissesIffCovered(p: Pipeline)
    requires WellFormed(p)
    ensures NeverMisses(p) <==> Covered(p)
  {
    if Covered(p) {
      forall w, w', was, io | AgreeOnIndexed(p, w, w')
        ensures Reconciled(p, w, was, io) == Reconciled(p, w', was, io)
      {
        IndexedViewDeterminesOutcome(p, w, w', was, io);
      }
    } else {
      var t :| t in Targets(p) && (t.ns == "" || UnindexedCluster(p, t));
      if UnindexedCluster(p, t) {
        UnindexedClusterIsMissed(p, t);
      } else {
        UnnamedNamespaceIsMissed(p, t);
      }
    }
  }

  // == Which events enqueue a pipeline ==

  /** A reference to a GitopsCluster resolves to the cluster. */
  predicate RefersTo(p: Pipeline, t: Target, c: ObjectKey) {
    t.clusterRef.Some? && t.clusterRef.value.kind == "GitopsCluster" && ReadCluster(p, t) == c
  }

  /** An event on a cluster enqueues exactly the stored pipelines with a reference to it, by kind and name. */
  lemma ClusterEventEnqueuesIff(p: Pipeline, stored: set<Pipeline>, c: ObjectKey)
    requires ValidObjectKey(c) && forall t | t in Targets(p) :: ValidObjectKey(ReadCluster(p, t))
    ensures p in PipelinesForCluster(stored, c) <==> p in stored && exists t | t in Targets(p) :: RefersTo(p, t, c)
  {
    ObjectKeyReadsBack(c);
    forall t | t in Targets(p)
      ensures t.clusterRef.Some? ==>
        (ObjectKeyString(IndexedCluster(p, t)) == ObjectKeyString(c) <==> ReadCluster(p, t) == c)
    {
      ObjectKeyReadsBack(ReadCluster(p, t));
    }
  }

  /** The target is this object on this cluster, with the namespace of the pipeline where it names none. */
  predicate IsTargetObject(p: Pipeline, t: Target, cluster: ObjectKey, gvk: Gvk, app: ObjectKey) {
    && AppGvk(p.appRef) == Some(gvk) && ReadCluster(p, t) == cluster
    && app == ObjectKey(if t.ns == "" then p.key.ns else t.ns, p.appRef.name)
  }

  /** An event on an application enqueues exactly the stored pipelines that have it as a target. */
  lemma ApplicationEventEnqueuesIff(
      p: Pipeline, stored: set<Pipeline>, cluster: ObjectKey, gvk: Gvk, app: ObjectKey)
    requires ValidObjectKey(cluster) && ValidGvk(gvk) && ValidObjectKey(app)
    requires AppGvk(p.appRef).Some? ==> ValidGvk(AppGvk(p.appRef).value)
    requires forall t | t in Targets(p) :: ValidObjectKey(ReadCluster(p, t)) && ValidObjectKey(IndexedTarget(p, t))
    ensures p in PipelinesForApplication(stored, cluster, gvk, app)
      <==> p in stored && exists t | t in Targets(p) :: IsTargetObject(p, t, cluster, gvk, app)
  {
    if AppGvk(p.appRef).Some? {
      var g := AppGvk(p.appRef).value;
      var fn := (c: ObjectKey, g: Gvk, o: ObjectKey) => TargetIndexKey(c, g, o);
      assert ApplicationKeys(p) == TargetKeys(fn, p);
      forall t | t in Targets(p)
        ensures fn(IndexedCluster(p, t), g, IndexedTarget(p, t)) in ApplicationKeys(p)
        ensures TargetIndexKey(IndexedCluster(p, t), g, IndexedTarget(p, t)) == TargetIndexKey(cluster, gvk, app)
          <==> IsTargetObject(p, t, cluster, gvk, app)
      {
        assert IndexedCluster(p, t) == ReadCluster(p, t);
        TargetIndexKeyInjective(IndexedCluster(p, t), g, IndexedTarget(p, t), cluster, gvk, app);
      }
    }
  }
}
