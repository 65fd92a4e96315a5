/** The edge-triggered reconciler: checks the clusters of a pipeline and writes its status back. */
module EdgeReconciler {
  import opened Options
  import opened Conditions
  import opened Api
  import opened Indexing
  import opened Reconciler
  import opened Publication
  import Gate

  const CLUSTER_NOT_FOUND := "TargetClusterNotFound"
  const CLUSTER_NOT_READY := "TargetClusterNotReady"

  /** The first problem among the clusters of the targets, in order. */
  datatype Verdict = Fine | Problem(reason: string, ref: ClusterRef) | Broken

  function CheckCluster(p: Pipeline, t: Target, w: World): Verdict {
    if t.clusterRef.None? then Fine
    else
      match w.cluster(ClusterKey(p, t.clusterRef.value))
      case ClusterNotFound(_) => Problem(CLUSTER_NOT_FOUND, t.clusterRef.value)
      case ClusterFailed(_) => Broken
      case ClusterFound(conditions) =>
        if IsReady(conditions) then Fine else Problem(CLUSTER_NOT_READY, t.clusterRef.value)
  }

  function CheckClusters(p: Pipeline, ts: seq<Target>, w: World): Verdict {
    if ts == [] then Fine
    else if CheckCluster(p, ts[0], w).Fine? then CheckClusters(p, ts[1..], w)
    else CheckCluster(p, ts[0], w)
  }

  function CheckEnvironments(p: Pipeline, envs: seq<Environment>, w: World): Verdict {
    if envs == [] then Fine
    else if CheckClusters(p, envs[0].targets, w).Fine? then CheckEnvironments(p, envs[1..], w)
    else CheckClusters(p, envs[0].targets, w)
  }

  function VerdictCondition(v: Verdict): Condition
    requires !v.Broken?
  {
    match v
    case Fine => Condition(READY, TRUE, SUCCEEDED, "All clusters checked")
    case Problem(reason, ref) =>
      var problem := if reason == CLUSTER_NOT_FOUND then "' not found" else "' not ready";
      Condition(READY, FALSE, reason, "Target cluster '" + ref.Describe() + problem)
  }

  /** The status written back on top of the one that was read; None when nothing is written. */
  function NewStatus(p: Pipeline, was: PipelineStatus, w: World): Option<PipelineStatus> {
    var v := CheckEnvironments(p, p.environments, w);
    if p.deleting || v.Broken? then None
    else Some(was.(observedGeneration := p.generation, conditions := SetCondition(was.conditions, VerdictCondition(v))))
  }

  method Reconcile(p: Pipeline, was: PipelineStatus, w: World) returns (next: Option<PipelineStatus>)
    ensures next == NewStatus(p, was, w)
  {
    if p.deleting {
      return None;
    }
    var status := was;
    var envs := p.environments;
    assert envs[0..] == envs;
    for i := 0 to |envs|
      invariant CheckEnvironments(p, envs, w) == CheckEnvironments(p, envs[i..], w)
    {
      assert envs[i..][1..] == envs[i + 1..];
      var ts := envs[i].targets;
      assert ts[0..] == ts;
      for j := 0 to |ts|
        invariant CheckClusters(p, ts, w) == CheckClusters(p, ts[j..], w)
      {
        assert ts[j..][1..] == ts[j + 1..];
        if ts[j].clusterRef.Some? {
          var ref := ts[j].clusterRef.value;
          var cluster := w.cluster(ClusterKey(p, ref));
          if cluster.ClusterFailed? {
            return None;
          }
          if cluster.ClusterNotFound? {
            status := status.(observedGeneration := p.generation);
            var condition := VerdictCondition(Problem(CLUSTER_NOT_FOUND, ref));
            status := status.(conditions := SetCondition(status.conditions, condition));
            return Some(status);
          }
          if !IsReady(cluster.conditions) {
            status := status.(observedGeneration := p.generation);
            var condition := VerdictCondition(Problem(CLUSTER_NOT_READY, ref));
            status := status.(conditions := SetCondition(status.conditions, condition));
            return Some(status);
          }
        }
      }
    }
    status := status.(observedGeneration := p.generation);
    status := status.(conditions := SetCondition(status.conditions, VerdictCondition(Fine)));
    return Some(status);
  }

  predicate ClusterFine(p: Pipeline, t: Target, w: World) {
    t.clusterRef.Some? ==> ClusterUsable(w.cluster(ClusterKey(p, t.clusterRef.value)))
  }

  lemma {:induction false} ClustersFineWhenAllUsable(p: Pipeline, ts: seq<Target>, w: World)
    ensures CheckClusters(p, ts, w).Fine? <==> forall t | t in ts :: ClusterFine(p, t, w)
  {
    if ts != [] {
      ClustersFineWhenAllUsable(p, ts[1..], w);
      assert CheckCluster(p, ts[0], w).Fine? <==> ClusterFine(p, ts[0], w);
      assert forall t :: t in ts <==> t == ts[0] || t in ts[1..];
    }
  }

  lemma {:induction false} EnvironmentsFineWhenAllUsable(p: Pipeline, envs: seq<Environment>, w: World)
    ensures CheckEnvironments(p, envs, w).Fine?
      <==> forall env, t | env in envs && t in env.targets :: ClusterFine(p, t, w)
  {
    if envs != [] {
      EnvironmentsFineWhenAllUsable(p, envs[1..], w);
      ClustersFineWhenAllUsable(p, envs[0].targets, w);
      assert forall env :: env in envs <==> env == envs[0] || env in envs[1..];
    }
  }

  /** The written Ready condition is True exactly when every referenced cluster exists and is ready. */
  lemma ReadyWhenAllClustersUsable(p: Pipeline, was: PipelineStatus, w: World)
    requires NewStatus(p, was, w).Some?
    ensures var next := NewStatus(p, was, w).value;
      && next.environments == was.environments
      && FindCondition(next.conditions, READY).Some?
      && (FindCondition(next.conditions, READY).value.status == TRUE <==>
            forall t | t in Targets(p) :: ClusterFine(p, t, w))
  {
    EnvironmentsFineWhenAllUsable(p, p.environments, w);
    SetThenFind(was.conditions, VerdictCondition(CheckEnvironments(p, p.environments, w)), READY);
  }

  /** Both reconcilers write statuses that the gate allows: waiting revisions are kept, or dropped. */
  lemma ReconcilersKeepOrDrop(p: Pipeline, was: PipelineStatus, w: World)
    ensures NewStatus(p, was, w).Some? ==> Gate.KeepsOrDrops(was, NewStatus(p, was, w).value)
    ensures Published(p, w, was).Some? ==> Gate.KeepsOrDrops(was, Published(p, w, was).value)
  {
    if Published(p, w, was).Some? {
      CollectCoversAll(p, p.environments, w);
    }
  }

  // == Which problem is reported ==

  lemma {:induction false} CheckClustersAppend(p: Pipeline, ts: seq<Target>, us: seq<Target>, w: World)
    ensures CheckClusters(p, ts + us, w)
         == if CheckClusters(p, ts, w).Fine? then CheckClusters(p, us, w) else CheckClusters(p, ts, w)
  {
    if ts == [] {
      assert ts + us == us;
    } else {
      assert (ts + us)[1..] == ts[1..] + us;
      CheckClustersAppend(p, ts[1..], us, w);
    }
  }

  lemma {:induction false} AllTargetsOf(env: Environment, rest: seq<Environment>)
    ensures AllTargets([env] + rest) == env.targets + AllTargets(rest)
  {
    var envs := [env] + rest;
    if rest == [] {
      assert envs[..0] == [] && AllTargets(envs) == AllTargets(envs[..0]) + env.targets;
    } else {
      var n := |rest| - 1;
      assert envs[..|envs| - 1] == [env] + rest[..n];
      AllTargetsOf(env, rest[..n]);
      assert env.targets + AllTargets(rest[..n]) + rest[n].targets
          == env.targets + (AllTargets(rest[..n]) + rest[n].targets);
    }
  }

  lemma {:induction false} CheckedInOrder(p: Pipeline, envs: seq<Environment>, w: World)
    ensures CheckEnvironments(p, envs, w) == CheckClusters(p, AllTargets(envs), w)
  {
    if envs != [] {
      assert envs == [envs[0]] + envs[1..];
      AllTargetsOf(envs[0], envs[1..]);
      CheckClustersAppend(p, envs[0].targets, AllTargets(envs[1..]), w);
      CheckedInOrder(p, envs[1..], w);
    }
  }

  lemma {:induction false} FirstProblem(p: Pipeline, ts: seq<Target>, w: World, i: nat)
    requires i < |ts| && (forall j | 0 <= j < i :: ClusterFine(p, ts[j], w)) && !ClusterFine(p, ts[i], w)
    ensures CheckClusters(p, ts, w) == CheckCluster(p, ts[i], w)
  {
    if i > 0 {
      assert CheckCluster(p, ts[0], w).Fine?;
      assert forall j | 0 <= j < i - 1 :: ts[1..][j] == ts[j + 1];
      FirstProblem(p, ts[1..], w, i - 1);
    }
  }

  /** The first target, in order, whose cluster cannot be used. */
  predicate IsFirstProblem(p: Pipeline, w: World, i: nat) {
    var ts := AllTargets(p.environments);
    i < |ts| && !ClusterFine(p, ts[i], w) && forall j | 0 <= j < i :: ClusterFine(p, ts[j], w)
  }

  /** What is reported for a target whose cluster cannot be used; nothing when its look-up fails otherwise. */
  function ReportFor(p: Pipeline, t: Target, w: World): Option<Condition>
    requires t.clusterRef.Some?
  {
    var name := t.clusterRef.value.Describe();
    match w.cluster(ClusterKey(p, t.clusterRef.value))
    case ClusterFailed(_) => None
    case ClusterNotFound(_) =>
      Some(Condition("Ready", "False", "TargetClusterNotFound", "Target cluster '" + name + "' not found"))
    case ClusterFound(_) =>
      Some(Condition("Ready", "False", "TargetClusterNotReady", "Target cluster '" + name + "' not ready"))
  }

  /** Only the Ready condition and the generation are new. */
  ghost predicate Reports(p: Pipeline, was: PipelineStatus, next: PipelineStatus, c: Condition) {
    && next.observedGeneration == p.generation && next.environments == was.environments
    && forall kind :: FindCondition(next.conditions, kind)
         == if kind == "Ready" then Some(c) else FindCondition(was.conditions, kind)
  }

  lemma WritingReports(p: Pipeline, was: PipelineStatus, c: Condition)
    requires c.kind == "Ready"
    ensures Reports(p, was, was.(observedGeneration := p.generation, conditions := SetCondition(was.conditions, c)), c)
  {
    forall kind
      ensures FindCondition(SetCondition(was.conditions, c), kind)
           == if kind == "Ready" then Some(c) else FindCondition(was.conditions, kind)
    {
      SetThenFind(was.conditions, c, kind);
    }
  }

  /** The first problem is the one reported, by its cause and its cluster; without one, success is. */
  lemma ReportsFirstProblem(p: Pipeline, was: PipelineStatus, w: World, i: nat)
    requires !p.deleting && IsFirstProblem(p, w, i)
    ensures AllTargets(p.environments)[i].clusterRef.Some?
    ensures var report := ReportFor(p, AllTargets(p.environments)[i], w);
      if report.None? then NewStatus(p, was, w).None?
      else NewStatus(p, was, w).Some? && Reports(p, was, NewStatus(p, was, w).value, report.value)
  {
    var report := ReportFor(p, AllTargets(p.environments)[i], w);
    CheckedInOrder(p, p.environments, w);
    FirstProblem(p, AllTargets(p.environments), w, i);
    if report.Some? {
      WritingReports(p, was, report.value);
    }
  }

  lemma ReportsSuccess(p: Pipeline, was: PipelineStatus, w: World)
    requires !p.deleting && forall t | t in Targets(p) :: ClusterFine(p, t, w)
    ensures NewStatus(p, was, w).Some?
    ensures Reports(p, was, NewStatus(p, was, w).value,
                    Condition("Ready", "True", "ReconciliationSucceeded", "All clusters checked"))
  {
    EnvironmentsFineWhenAllUsable(p, p.environments, w);
    WritingReports(p, was, Condition("Ready", "True", "ReconciliationSucceeded", "All clusters checked"));
  }

  lemma SomeProblemIsFirst(p: Pipeline, ts: seq<Target>, w: World) returns (i: nat)
    requires exists t | t in ts :: !ClusterFine(p, t, w)
    ensures i < |ts| && !ClusterFine(p, ts[i], w) && forall j | 0 <= j < i :: ClusterFine(p, ts[j], w)
  {
    i := 0;
    while ClusterFine(p, ts[i], w)
      invariant i < |ts| && forall j | 0 <= j < i :: ClusterFine(p, ts[j], w)
      decreases |ts| - i
    {
      if i == |ts| - 1 {
        var t :| t in ts && !ClusterFine(p, t, w);
        var j :| 0 <= j < |ts| && ts[j] == t;
        assert j == i;
      }
      i := i + 1;
    }
  }

  /** Nothing is written exactly when the pipeline is being deleted, or the look-up of the first problem failed. */
  lemma WritesNothingIff(p: Pipeline, was: PipelineStatus, w: World)
    ensures NewStatus(p, was, w).None? <==> p.deleting || exists i: nat ::
      IsFirstProblem(p, w, i)
      && w.cluster(ClusterKey(p, AllTargets(p.environments)[i].clusterRef.value)).ClusterFailed?
  {
    if !p.deleting {
      forall t
        ensures t in AllTargets(p.environments) <==> t in Targets(p)
      {
        AllTargetsAreTargets(p.environments, t);
      }
      forall i: nat | IsFirstProblem(p, w, i)
        ensures AllTargets(p.environments)[i].clusterRef.Some?
        ensures NewStatus(p, was, w).None?
          <==> w.cluster(ClusterKey(p, AllTargets(p.environments)[i].clusterRef.value)).ClusterFailed?
      {
        ReportsFirstProblem(p, was, w, i);
      }
      if t :| t in Targets(p) && !ClusterFine(p, t, w) {
        var i := SomeProblemIsFirst(p, AllTargets(p.environments), w);
        assert IsFirstProblem(p, w, i);
      } else {
        ReportsSuccess(p, was, w);
      }
    }
  }
}
