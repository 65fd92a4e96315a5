/** Which caches count as used, and what that means for the pipelines that read through them. */
module CacheUse {
  import opened Options
  import opened Api
  import opened Keys
  import opened Indexing
  import opened Reconciler
  import opened Wakeups
  import opened Caches
  import opened Collection

  predicate ValidTargets(p: Pipeline) {
    && (AppGvk(p.appRef).Some? ==> ValidGvk(AppGvk(p.appRef).value))
    && (forall t | t in Targets(p) :: ValidObjectKey(IndexedCluster(p, t)))
  }

  /** Some stored pipeline has a target whose cluster and type resolve to the key. */
  ghost predicate Resolves(stored: set<Pipeline>, key: CacheKey) {
    exists p, t :: p in stored && t in Targets(p) && ResolvesTo(p, t, key)
  }

  predicate ResolvesTo(p: Pipeline, t: Target, key: CacheKey) {
    AppGvk(p.appRef) == Some(key.gvk) && ReadCluster(p, t) == key.cluster
  }

  lemma CacheIsUsedIffResolved(stored: set<Pipeline>, key: CacheKey)
    requires ValidObjectKey(key.cluster) && ValidGvk(key.gvk)
    requires forall p | p in stored :: ValidTargets(p)
    ensures IsCacheUsed(stored, key) <==> Resolves(stored, key)
  {
    if IsCacheUsed(stored, key) {
      var p :| p in stored && CacheKeyString(key) in CacheKeys(p);
      var gvk := AppGvk(p.appRef).value;
      var t :| t in Targets(p)
            && ClusterCacheKey(IndexedCluster(p, t), gvk, IndexedTarget(p, t)) == CacheKeyString(key);
      CacheKeyInjective(key, CacheKey(IndexedCluster(p, t), gvk));
      assert ReadCluster(p, t) == IndexedCluster(p, t);
      assert ResolvesTo(p, t, key);
    }
    if Resolves(stored, key) {
      var p, t :| p in stored && t in Targets(p) && ResolvesTo(p, t, key);
      ReaderKeyIsIndexed(p, t);
    }
  }

  /** With check and removal as one, no stored pipeline loses a cache it reads a target from. */
  lemma StoredPipelinesKeepTheirCaches(run: seq<State>, steps: seq<Step>, n: nat, k: CacheKey, p: Pipeline, t: Target)
    requires IsRun(run, steps) && CollectsAtomically(run, steps)
    requires n < |steps| && k in run[n].caches && k !in run[n + 1].caches
    requires p in run[n + 1].stored && t in Targets(p) && AppGvk(p.appRef).Some?
    ensures k != CacheKey(ReadCluster(p, t), AppGvk(p.appRef).value)
  {
    AtomicGcRemovesOnlyUnused(run, steps, n, k);
    ReaderKeyIsIndexed(p, t);
  }

  /** And a call made for such a target holds a live cache for as long as the pipeline is stored. */
  lemma StoredPipelinesReadLiveCaches(
      run: seq<State>, steps: seq<Step>, m: nat, n: nat, w: nat, p: Pipeline, t: Target)
    requires IsRun(run, steps) && CollectsAtomically(run, steps)
    requires m < n < |run| && (steps[m] == Lookup(w) || steps[m] == Recheck(w))
    requires w in run[m + 1].calls && HasCache(run[m + 1].calls[w])
    requires t in Targets(p) && ResolvesTo(p, t, run[m + 1].calls[w].key)
    requires forall x | m < x <= n :: p in run[x].stored
    ensures run[m + 1].calls[w].id in run[n].live
  {
    ReaderKeyIsIndexed(p, t);
    ReaderOfUsedCacheIsLive(run, steps, m, n, w);
  }
}
