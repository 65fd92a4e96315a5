/** What the published status says about the objects that were read. */
module Publication {
  import opened Options
  import opened Unstructured
  import opened Conditions
  import opened Api
  import opened Keys
  import opened Reconciler

  /** The application object behind a target, when every step needed to read it succeeds. */
  function ReadObject(p: Pipeline, t: Target, w: World): Option<Value> {
    if AppGvk(p.appRef).None? then None
    else if t.clusterRef.Some? && !ClusterUsable(w.cluster(ClusterKey(p, t.clusterRef.value))) then None
    else
      var cache := CacheKey(ReadCluster(p, t), AppGvk(p.appRef).value);
      if w.reader(cache) != Synced then None
      else match w.app(cache, ReadKey(p, t))
        case AppFound(manifest) => Some(manifest)
        case AppFailed(_) => None
  }

  predicate ClusterUsable(c: ClusterLookup) {
    c.ClusterFound? && IsReady(c.conditions)
  }

  /** A conditions list whose first Ready entry is True, and a revision that was applied. */
  ghost predicate Usable(app: Value) {
    && NestedSlice(app, ["status", "conditions"]).Some?
    && FirstUntypedReadyIsTrue(NestedSlice(app, ["status", "conditions"]).value)
    && NestedString(app, ["status", "lastAppliedRevision"]).Some?
  }

  function AppliedRevision(p: Pipeline, t: Target, w: World): Option<string> {
    match ReadObject(p, t, w)
    case None => None
    case Some(app) => NestedString(app, ["status", "lastAppliedRevision"])
  }

  /** The revision a target runs, as far as it can be told: that of an object with a conditions list. */
  function RunningRevision(p: Pipeline, t: Target, w: World): string {
    match ReadObject(p, t, w)
    case None => ""
    case Some(app) =>
      match (NestedSlice(app, ["status", "conditions"]), NestedString(app, ["status", "lastAppliedRevision"]))
      case (Some(_), Some(revision)) => revision
      case _ => ""
  }

  /** What one target status may say, given the world it was read in. */
  ghost predicate Faithful(p: Pipeline, t: Target, w: World, s: TargetStatus) {
    && s.appRef == p.appRef && s.clusterRef == t.clusterRef
    && (s.ready <==> ReadObject(p, t, w).Some? && Usable(ReadObject(p, t, w).value))
    && s.revision == RunningRevision(p, t, w)
    && (s.ready ==> AppliedRevision(p, t, w) == Some(s.revision))
    && ErrorNamesFailure(p, t, w, s.error)
  }

  /** The error is that of the first step that failed, in the order of the reads; "" when none did. */
  ghost predicate ErrorNamesFailure(p: Pipeline, t: Target, w: World, error: string) {
    && (t.clusterRef.Some? ==>
          match w.cluster(ClusterKey(p, t.clusterRef.value))
          case ClusterNotFound(message) => error == message
          case ClusterFailed(_) => true
          case ClusterFound(cs) =>
            !IsReady(cs) ==> error == "Target cluster '" + t.clusterRef.value.Describe() + "' not ready")
    && (ClusterReadable(p, t, w) && AppGvk(p.appRef).None? ==> error == NO_OBJECT)
    && (ClusterReadable(p, t, w) && AppGvk(p.appRef).Some? ==>
          match w.reader(TargetCache(p, t))
          case ReaderFailed => true
          case NotSynced => error == NOT_SYNCED
          case Synced =>
            match w.app(TargetCache(p, t), ReadKey(p, t))
            case AppFailed(message) => error == message
            case AppFound(app) => error == if ReadyWithoutRevision(app) then NO_REVISION else "")
  }

  /** There is no cluster to read, or it is there and ready. */
  predicate ClusterReadable(p: Pipeline, t: Target, w: World) {
    t.clusterRef.Some? ==> ClusterUsable(w.cluster(ClusterKey(p, t.clusterRef.value)))
  }

  function TargetCache(p: Pipeline, t: Target): CacheKey
    requires AppGvk(p.appRef).Some?
  {
    CacheKey(ReadCluster(p, t), AppGvk(p.appRef).value)
  }

  ghost predicate ReadyWithoutRevision(app: Value) {
    && NestedSlice(app, ["status", "conditions"]).Some?
    && FirstUntypedReadyIsTrue(NestedSlice(app, ["status", "conditions"]).value)
    && NestedString(app, ["status", "lastAppliedRevision"]).None?
  }

  /**
   A target aborts the reconciliation exactly when its cluster cannot be looked up for a reason other than that it does
   not exist, or it is readable and no reader can be got.
   */
  lemma AbortsIff(p: Pipeline, t: Target, w: World)
    ensures CheckTarget(p, t, w).Abort? <==>
      || (t.clusterRef.Some? && w.cluster(ClusterKey(p, t.clusterRef.value)).ClusterFailed?)
      || (ClusterReadable(p, t, w) && AppGvk(p.appRef).Some? && w.reader(TargetCache(p, t)).ReaderFailed?)
  {
  }

  lemma CheckTargetIsFaithful(p: Pipeline, t: Target, w: World)
    requires CheckTarget(p, t, w).Checked?
    ensures Faithful(p, t, w, CheckTarget(p, t, w).status)
    ensures CheckTarget(p, t, w).unreadable <==> ReadObject(p, t, w).None?
  {
    if ReadObject(p, t, w).Some? {
      var conds := NestedSlice(ReadObject(p, t, w).value, ["status", "conditions"]);
      if conds.Some? {
        UntypedScanMeansFirstReadyIsTrue(conds.value);
      }
    }
  }

  lemma {:induction false} CheckTargetsSomeIff(p: Pipeline, ts: seq<Target>, w: World)
    ensures CheckTargets(p, ts, w).Some? <==> forall i :: 0 <= i < |ts| ==> CheckTarget(p, ts[i], w).Checked?
  {
    hide CheckTarget;
    if ts != [] {
      var n := |ts| - 1;
      CheckTargetsSomeIff(p, ts[..n], w);
      assert forall i :: 0 <= i < n ==> ts[..n][i] == ts[i];
    }
  }

  lemma {:induction false} CheckTargetsStatuses(p: Pipeline, ts: seq<Target>, w: World)
    requires CheckTargets(p, ts, w).Some?
    ensures var statuses := CheckTargets(p, ts, w).value.0;
      |statuses| == |ts|
      && forall i :: 0 <= i < |ts| ==>
           CheckTarget(p, ts[i], w).Checked? && statuses[i] == CheckTarget(p, ts[i], w).status
  {
    hide CheckTarget;
    if ts != [] {
      var n := |ts| - 1;
      CheckTargetsStatuses(p, ts[..n], w);
      assert forall i :: 0 <= i < n ==> ts[..n][i] == ts[i];
    }
  }

  predicate UnreadableAt(p: Pipeline, ts: seq<Target>, w: World, i: int) {
    0 <= i < |ts| && CheckTarget(p, ts[i], w).Checked? && CheckTarget(p, ts[i], w).unreadable
  }

  lemma {:induction false} CheckTargetsUnready(p: Pipeline, ts: seq<Target>, w: World)
    requires CheckTargets(p, ts, w).Some?
    ensures CheckTargets(p, ts, w).value.1 <==> exists i :: UnreadableAt(p, ts, w, i)
  {
    hide CheckTarget;
    if ts != [] {
      var n := |ts| - 1;
      CheckTargetsUnready(p, ts[..n], w);
      assert forall i :: 0 <= i < n ==> UnreadableAt(p, ts[..n], w, i) == UnreadableAt(p, ts, w, i);
      assert CheckTarget(p, ts[n], w).Checked?;
      if i :| UnreadableAt(p, ts, w, i) {
        assert i == n || UnreadableAt(p, ts[..n], w, i);
      }
      if i :| UnreadableAt(p, ts[..n], w, i) {
        assert UnreadableAt(p, ts, w, i);
      }
      assert CheckTarget(p, ts[n], w).unreadable ==> UnreadableAt(p, ts, w, n);
    }
  }

  lemma CheckTargetsPointwise(p: Pipeline, ts: seq<Target>, w: World)
    ensures CheckTargets(p, ts, w).Some? <==> forall i :: 0 <= i < |ts| ==> CheckTarget(p, ts[i], w).Checked?
    ensures CheckTargets(p, ts, w).Some? ==>
      var (statuses, unready) := CheckTargets(p, ts, w).value;
      && |statuses| == |ts|
      && (forall i :: 0 <= i < |ts| ==> statuses[i] == CheckTarget(p, ts[i], w).status)
      && (unready <==> exists i :: 0 <= i < |ts| && CheckTarget(p, ts[i], w).unreadable)
  {
    hide CheckTarget, CheckTargets;
    CheckTargetsSomeIff(p, ts, w);
    if CheckTargets(p, ts, w).Some? {
      CheckTargetsStatuses(p, ts, w);
      CheckTargetsUnready(p, ts, w);
      if i :| 0 <= i < |ts| && CheckTarget(p, ts[i], w).unreadable {
        assert UnreadableAt(p, ts, w, i);
      }
    }
  }

  function Names(envs: seq<Environment>): set<string> {
    set e | e in envs :: e.name
  }

  ghost predicate CollectedStatuses(p: Pipeline, envs: seq<Environment>, w: World, st: map<string, EnvironmentStatus>) {
    && st.Keys == Names(envs)
    && forall k :: 0 <= k < |envs| ==>
         CheckTargets(p, envs[k].targets, w).Some?
         && envs[k].name in st
         && st[envs[k].name] == EnvironmentStatus("", CheckTargets(p, envs[k].targets, w).value.0)
  }

  ghost predicate SomeUnready(p: Pipeline, envs: seq<Environment>, w: World) {
    exists k :: 0 <= k < |envs|
      && CheckTargets(p, envs[k].targets, w).Some? && CheckTargets(p, envs[k].targets, w).value.1
  }

  ghost predicate AllChecked(p: Pipeline, envs: seq<Environment>, w: World) {
    forall k :: 0 <= k < |envs| ==> CheckTargets(p, envs[k].targets, w).Some?
  }

  lemma {:induction false} CollectPointwise(p: Pipeline, envs: seq<Environment>, w: World)
    requires UniqueNames(envs)
    ensures Collect(p, envs, w).Some? <==> AllChecked(p, envs, w)
    ensures Collect(p, envs, w).Some? ==> CollectedStatuses(p, envs, w, Collect(p, envs, w).value.environments)
    ensures Collect(p, envs, w).Some? ==> (Collect(p, envs, w).value.unready <==> SomeUnready(p, envs, w))
  {
    hide CheckTargets;
    if envs != [] {
      var n := |envs| - 1;
      CollectPointwise(p, envs[..n], w);
      assert AllChecked(p, envs, w) <==> AllChecked(p, envs[..n], w) && CheckTargets(p, envs[n].targets, w).Some? by {
        assert forall k :: 0 <= k < n ==> envs[..n][k] == envs[k];
      }
      if Collect(p, envs, w).Some? {
        CollectedExtends(p, envs, w, Collect(p, envs[..n], w).value.environments);
        CollectUnready(p, envs, w);
      }
    }
  }

  lemma NamesExtend(envs: seq<Environment>)
    requires envs != []
    ensures Names(envs) == Names(envs[..|envs| - 1]) + {envs[|envs| - 1].name}
  {
    assert envs == envs[..|envs| - 1] + [envs[|envs| - 1]];
  }

  lemma CollectedExtends(p: Pipeline, envs: seq<Environment>, w: World, st: map<string, EnvironmentStatus>)
    requires envs != [] && UniqueNames(envs) && CheckTargets(p, envs[|envs| - 1].targets, w).Some?
    requires CollectedStatuses(p, envs[..|envs| - 1], w, st)
    ensures var last := envs[|envs| - 1];
      CollectedStatuses(p, envs, w, st[last.name := EnvironmentStatus("", CheckTargets(p, last.targets, w).value.0)])
  {
    var n := |envs| - 1;
    NamesExtend(envs);
    hide Names, CheckTargets;
    forall k | 0 <= k < n
      ensures envs[..n][k] == envs[k] && envs[k].name != envs[n].name
    {
    }
  }

  lemma CollectUnready(p: Pipeline, envs: seq<Environment>, w: World)
    requires envs != [] && CheckTargets(p, envs[|envs| - 1].targets, w).Some?
    ensures SomeUnready(p, envs, w)
      <==> SomeUnready(p, envs[..|envs| - 1], w) || CheckTargets(p, envs[|envs| - 1].targets, w).value.1
  {
    var n := |envs| - 1;
    assert forall k :: 0 <= k < n ==> envs[..n][k] == envs[k];
  }

  /** The targets some environment names: pairs of an environment and a target index. */
  predicate IsTarget(p: Pipeline, k: int, i: int) {
    0 <= k < |p.environments| && 0 <= i < |p.environments[k].targets|
  }

  lemma PublishedStatusIsFaithful(p: Pipeline, w: World, was: PipelineStatus)
    requires UniqueNames(p.environments) && Published(p, w, was).Some?
    ensures var s := Published(p, w, was).value;
      && s.environments.Keys == Names(p.environments)
      && (forall k :: 0 <= k < |p.environments| ==>
            |s.environments[p.environments[k].name].targets| == |p.environments[k].targets|)
      && (forall k, i | IsTarget(p, k, i) ::
            Faithful(p, p.environments[k].targets[i], w, s.environments[p.environments[k].name].targets[i]))
      && FindCondition(s.conditions, READY).Some?
      && (FindCondition(s.conditions, READY).value.status == FALSE <==>
            exists k, i :: IsTarget(p, k, i) && ReadObject(p, p.environments[k].targets[i], w).None?)
  {
    hide CheckTarget, CheckTargets, ReadObject, Faithful;
    var s := Published(p, w, was).value;
    var c := Collect(p, p.environments, w).value;
    CollectPointwise(p, p.environments, w);
    SetThenFind(was.conditions, ReadyCondition(c.unready), READY);
    forall k | 0 <= k < |p.environments|
      ensures |s.environments[p.environments[k].name].targets| == |p.environments[k].targets|
      ensures forall i | IsTarget(p, k, i) ::
        CheckTarget(p, p.environments[k].targets[i], w).Checked?
        && s.environments[p.environments[k].name].targets[i] == CheckTarget(p, p.environments[k].targets[i], w).status
      ensures CheckTargets(p, p.environments[k].targets, w).value.1
        <==> exists i :: IsTarget(p, k, i) && CheckTarget(p, p.environments[k].targets[i], w).unreadable
    {
      CheckTargetsPointwise(p, p.environments[k].targets, w);
    }
    forall k, i | IsTarget(p, k, i)
      ensures Faithful(p, p.environments[k].targets[i], w, s.environments[p.environments[k].name].targets[i])
      ensures CheckTarget(p, p.environments[k].targets[i], w).unreadable
        <==> ReadObject(p, p.environments[k].targets[i], w).None?
    {
      CheckTargetIsFaithful(p, p.environments[k].targets[i], w);
    }
  }

  /** Publishing replaces the environment map, so whatever waited for approval is forgotten. */
  lemma ReconcileDropsWaitingApprovals(p: Pipeline, w: World, was: PipelineStatus, io: Io, env: string)
    requires !p.deleting && io.publish && Published(p, w, was).Some?
    ensures GetWaitingApproval(Reconciled(p, w, was, io).stored.environments, env) == ""
  {
    CollectCoversAll(p, p.environments, w);
  }

  // == Which objects are read ==

  /** A cluster reference without a namespace means the one of the pipeline, and any other namespace is kept. */
  lemma ReferenceDefaults(p: Pipeline, t: Target)
    requires t.clusterRef.Some?
    ensures var ref := t.clusterRef.value;
      && ReadCluster(p, t) == ReadCluster(p, t.(clusterRef := Some(ref.(ns := ReadCluster(p, t).ns))))
      && (ref.ns == "" ==> ReadCluster(p, t).ns == p.key.ns)
      && (ref.ns != "" ==> ReadCluster(p, t).ns == ref.ns)
      && ReadCluster(p, t).name == ref.name
  {
  }
}
