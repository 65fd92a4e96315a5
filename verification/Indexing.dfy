/** The indexes over stored pipelines, and the lookups that go through them. */
module Indexing {
  import opened Options
  import opened Api
  import opened Keys

  type TargetKeyFunc = (ObjectKey, Gvk, ObjectKey) -> string

  const GITOPS_CLUSTER := "GitopsCluster"

  function IndexedCluster(p: Pipeline, t: Target): ObjectKey {
    match t.clusterRef
    case None => LOCAL
    case Some(ref) => ObjectKey(if ref.ns == "" then p.key.ns else ref.ns, ref.name)
  }

  function IndexedTarget(p: Pipeline, t: Target): ObjectKey {
    ObjectKey(if t.ns == "" then p.key.ns else t.ns, p.appRef.name)
  }

  /** All targets of all environments. */
  function Targets(p: Pipeline): set<Target> {
    set env, t | env in p.environments && t in env.targets :: t
  }

  function TargetKeys(fn: TargetKeyFunc, p: Pipeline): set<string> {
    match AppGvk(p.appRef)
    case None => {}
    case Some(gvk) => set t | t in Targets(p) :: fn(IndexedCluster(p, t), gvk, IndexedTarget(p, t))
  }

  function ClusterKeys(kind: string, p: Pipeline): set<string> {
    set t | t in Targets(p) && t.clusterRef.Some? && t.clusterRef.value.kind == kind ::
      ObjectKeyString(IndexedCluster(p, t))
  }

  /** The key function of the application index. */
  function ApplicationKeys(p: Pipeline): set<string> {
    TargetKeys((c: ObjectKey, g: Gvk, t: ObjectKey) => TargetIndexKey(c, g, t), p)
  }

  /** The key function of the cache index. */
  function CacheKeys(p: Pipeline): set<string> {
    TargetKeys((c: ObjectKey, g: Gvk, t: ObjectKey) => ClusterCacheKey(c, g, t), p)
  }

  /** All targets of the environments, in order. */
  function AllTargets(envs: seq<Environment>): seq<Target> {
    if envs == [] then [] else AllTargets(envs[..|envs| - 1]) + envs[|envs| - 1].targets
  }

  function KeyOf(fn: TargetKeyFunc, p: Pipeline, gvk: Gvk, t: Target): string {
    fn(IndexedCluster(p, t), gvk, IndexedTarget(p, t))
  }

  lemma {:induction false} AllTargetsAreTargets(envs: seq<Environment>, t: Target)
    ensures t in AllTargets(envs) <==> exists env | env in envs :: t in env.targets
  {
    if envs != [] {
      var n := |envs| - 1;
      AllTargetsAreTargets(envs[..n], t);
      assert forall env :: env in envs <==> env in envs[..n] || env == envs[n];
    }
  }

  /** As a set, the keys are those of the index. */
  lemma KeysAreTargetKeys(fn: TargetKeyFunc, p: Pipeline, keys: seq<string>)
    requires AppGvk(p.appRef).Some? && |keys| == |AllTargets(p.environments)|
    requires forall i | 0 <= i < |keys| ::
      keys[i] == KeyOf(fn, p, AppGvk(p.appRef).value, AllTargets(p.environments)[i])
    ensures forall key :: key in keys <==> key in TargetKeys(fn, p)
  {
    var ts, gvk := AllTargets(p.environments), AppGvk(p.appRef).value;
    forall t
      ensures t in ts <==> t in Targets(p)
    {
      AllTargetsAreTargets(p.environments, t);
    }
    forall key | key in TargetKeys(fn, p)
      ensures key in keys
    {
      var t :| t in Targets(p) && fn(IndexedCluster(p, t), gvk, IndexedTarget(p, t)) == key;
      var i :| 0 <= i < |ts| && ts[i] == t;
      assert keys[i] == key;
    }
    forall i | 0 <= i < |keys|
      ensures keys[i] in TargetKeys(fn, p)
    {
      assert ts[i] in Targets(p);
    }
  }

  /** One key for each target, in order. */
  method IndexTargets(fn: TargetKeyFunc, p: Pipeline) returns (res: seq<string>)
    ensures AppGvk(p.appRef).None? ==> res == []
    ensures AppGvk(p.appRef).Some? ==>
      && |res| == |AllTargets(p.environments)|
      && forall i | 0 <= i < |res| ::
           res[i] == KeyOf(fn, p, AppGvk(p.appRef).value, AllTargets(p.environments)[i])
    ensures forall key :: key in res <==> key in TargetKeys(fn, p)
  {
    res := [];
    var gvk := AppGvk(p.appRef);
    if gvk.None? {
      return;
    }
    var envs := p.environments;
    for i := 0 to |envs|
      invariant |res| == |AllTargets(envs[..i])|
      invariant forall n | 0 <= n < |res| :: res[n] == KeyOf(fn, p, gvk.value, AllTargets(envs[..i])[n])
    {
      assert envs[..i + 1][..i] == envs[..i];
      var ts := envs[i].targets;
      ghost var before := AllTargets(envs[..i]);
      for j := 0 to |ts|
        invariant |res| == |before| + j
        invariant forall n | 0 <= n < |res| :: res[n] == KeyOf(fn, p, gvk.value, (before + ts)[n])
      {
        var target := ts[j];
        var clusterKey := LOCAL;
        if target.clusterRef.Some? {
          clusterKey := ObjectKey(target.clusterRef.value.ns, target.clusterRef.value.name);
          if clusterKey.ns == "" {
            clusterKey := clusterKey.(ns := p.key.ns);
          }
        }
        var targetKey := ObjectKey(target.ns, p.appRef.name);
        if targetKey.ns == "" {
          targetKey := targetKey.(ns := p.key.ns);
        }
        res := res + [fn(clusterKey, gvk.value, targetKey)];
      }
    }
    assert envs[..|envs|] == envs;
    KeysAreTargetKeys(fn, p, res);
  }

  method IndexClusterKind(kind: string, p: Pipeline) returns (res: seq<string>)
    ensures forall key :: key in res <==> key in ClusterKeys(kind, p)
  {
    res := [];
    ghost var seen: set<Target> := {};
    for i := 0 to |p.environments|
      invariant forall t :: t in seen <==> exists j :: 0 <= j < i && t in p.environments[j].targets
      invariant forall key :: key in res <==> key in ClusterKeysOf(kind, p, seen)
    {
      var ts := p.environments[i].targets;
      for j := 0 to |ts|
        invariant forall t :: t in seen <==> t in ts[..j] || exists k :: 0 <= k < i && t in p.environments[k].targets
        invariant forall key :: key in res <==> key in ClusterKeysOf(kind, p, seen)
      {
        var target := ts[j];
        if target.clusterRef.Some? && target.clusterRef.value.kind == kind {
          var ns := p.key.ns;
          if target.clusterRef.value.ns != "" {
            ns := target.clusterRef.value.ns;
          }
          res := res + [ns + "/" + target.clusterRef.value.name];
        }
        seen := seen + {target};
      }
      assert ts[..|ts|] == ts;
    }
    assert seen == Targets(p);
  }

  ghost function ClusterKeysOf(kind: string, p: Pipeline, ts: set<Target>): set<string> {
    set t | t in ts && t.clusterRef.Some? && t.clusterRef.value.kind == kind :: ObjectKeyString(IndexedCluster(p, t))
  }

  /** A list with a field selector: the stored pipelines indexed under the key. */
  function PipelinesForApplication(stored: set<Pipeline>, cluster: ObjectKey, gvk: Gvk, app: ObjectKey): set<Pipeline> {
    set p | p in stored && TargetIndexKey(cluster, gvk, app) in ApplicationKeys(p)
  }

  function PipelinesForCluster(stored: set<Pipeline>, cluster: ObjectKey): set<Pipeline> {
    set p | p in stored && ObjectKeyString(cluster) in ClusterKeys(GITOPS_CLUSTER, p)
  }

  predicate IsCacheUsed(stored: set<Pipeline>, key: CacheKey) {
    exists p | p in stored :: CacheKeyString(key) in CacheKeys(p)
  }

  /** The requests for a cluster event, one per listed pipeline; none when the listing fails. */
  method RequestsForCluster(listed: Option<seq<Pipeline>>) returns (reqs: seq<ObjectKey>)
    ensures listed.None? ==> reqs == []
    ensures listed.Some? ==> |reqs| == |listed.value|
    ensures listed.Some? ==> forall i :: 0 <= i < |reqs| ==> reqs[i] == listed.value[i].key
  {
    if listed.None? || listed.value == [] {
      return [];
    }
    var buffer := new ObjectKey[|listed.value|](_ => LOCAL);
    for i := 0 to |listed.value|
      invariant forall j :: 0 <= j < i ==> buffer[j] == listed.value[j].key
    {
      buffer[i] := listed.value[i].key;
    }
    reqs := buffer[..];
  }
}
