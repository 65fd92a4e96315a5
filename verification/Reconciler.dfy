/**
 The level-triggered reconciler: one status per target is collected from the clusters and published, then the
 first lagging environment is promoted.
 */
module Reconciler {
  import opened Options
  import opened Unstructured
  import opened Conditions
  import opened Api
  import opened Keys

  // == What a reconciliation reads ==

  datatype ClusterLookup =
    | ClusterFound(conditions: seq<Condition>)
    | ClusterNotFound(message: string)
    | ClusterFailed(message: string)

  /** Result of asking for a reader: an error, a cache that is not synced yet, or a usable one. */
  datatype ReaderState = ReaderFailed | NotSynced | Synced

  datatype AppLookup = AppFound(manifest: Value) | AppFailed(message: string)

  datatype World = World(
    cluster: ObjectKey -> ClusterLookup,
    reader: CacheKey -> ReaderState,
    app: (CacheKey, ObjectKey) -> AppLookup)

  /** Outcomes of the calls that write: the two status patches, the strategy registry and the strategy. */
  datatype Io = Io(publish: bool, pending: bool, registered: Promotion -> bool, promote: bool)

  const NOT_SYNCED := "Target cluster client is not synced"
  const NO_OBJECT := "target spec could not be interpreted as an object"
  const NO_REVISION := "unable to find .status.lastAppliedRevision in ready target object"
  const TARGET_NOT_READABLE := "TargetNotReadable"
  const SUCCEEDED := "ReconciliationSucceeded"
  const ENVIRONMENT_NOT_READY := "EnvironmentNotReady"
  const WAITING_FOR_REVISION := "Waiting for all targets to have the same revision"
  const WAITING_FOR_READY := "Waiting for all targets to be ready"

  // == One target ==

  datatype TargetResult = Abort | Checked(status: TargetStatus, unreadable: bool)

  function ClusterKey(p: Pipeline, ref: ClusterRef): ObjectKey {
    ObjectKey(if ref.ns == "" then p.key.ns else ref.ns, ref.name)
  }

  /** The cluster under which the caches are asked for the target; the local one when there is no reference. */
  function ReadCluster(p: Pipeline, t: Target): ObjectKey {
    if t.clusterRef.Some? then ClusterKey(p, t.clusterRef.value) else LOCAL
  }

  function ReadKey(p: Pipeline, t: Target): ObjectKey {
    ObjectKey(t.ns, p.appRef.name)
  }

  function InitialStatus(p: Pipeline, t: Target): TargetStatus {
    TargetStatus(p.appRef, t.clusterRef, false, "", "")
  }

  /** Records readiness and revision of a Flux-like object in a target status. */
  function AppStatus(s: TargetStatus, manifest: Value): TargetStatus {
    match NestedSlice(manifest, ["status", "conditions"])
    case None => s.(ready := false)
    case Some(conds) =>
      var ready := IsReadyUnstructured(conds);
      match NestedString(manifest, ["status", "lastAppliedRevision"])
      case None => if ready then s.(ready := false, error := NO_REVISION) else s.(ready := false)
      case Some(revision) => s.(ready := ready, revision := revision)
  }

  function CheckApp(p: Pipeline, t: Target, w: World): TargetResult {
    var s := InitialStatus(p, t);
    match AppGvk(p.appRef)
    case None => Checked(s.(error := NO_OBJECT), true)
    case Some(gvk) =>
      var cache := CacheKey(ReadCluster(p, t), gvk);
      match w.reader(cache)
      case ReaderFailed => Abort
      case NotSynced => Checked(s.(error := NOT_SYNCED), true)
      case Synced =>
        match w.app(cache, ReadKey(p, t))
        case AppFailed(message) => Checked(s.(error := message), true)
        case AppFound(manifest) => Checked(AppStatus(s, manifest), false)
  }

  function CheckTarget(p: Pipeline, t: Target, w: World): TargetResult {
    if t.clusterRef.None? then CheckApp(p, t, w)
    else
      match w.cluster(ClusterKey(p, t.clusterRef.value))
      case ClusterNotFound(message) => Checked(InitialStatus(p, t).(error := message), true)
      case ClusterFailed(_) => Abort
      case ClusterFound(conditions) =>
        if IsReady(conditions) then CheckApp(p, t, w)
        else Checked(InitialStatus(p, t).(error := ClusterNotReady(t.clusterRef.value)), true)
  }

  function ClusterNotReady(ref: ClusterRef): string {
    "Target cluster '" + ref.Describe() + "' not ready"
  }

  // == All targets ==

  datatype Collected = Collected(environments: map<string, EnvironmentStatus>, unready: bool)

  function CheckTargets(p: Pipeline, ts: seq<Target>, w: World): Option<(seq<TargetStatus>, bool)> {
    if ts == [] then Some(([], false))
    else
      match (CheckTargets(p, ts[..|ts| - 1], w), CheckTarget(p, ts[|ts| - 1], w))
      case (Some((done, unready)), Checked(status, unreadable)) => Some((done + [status], unready || unreadable))
      case _ => None
  }

  function Collect(p: Pipeline, envs: seq<Environment>, w: World): Option<Collected> {
    if envs == [] then Some(Collected(map[], false))
    else
      var env := envs[|envs| - 1];
      match (Collect(p, envs[..|envs| - 1], w), CheckTargets(p, env.targets, w))
      case (Some(c), Some((targets, unready))) =>
        Some(Collected(c.environments[env.name := EnvironmentStatus("", targets)], c.unready || unready))
      case _ => None
  }

  function ReadyCondition(unready: bool): Condition {
    if unready then Condition(READY, FALSE, TARGET_NOT_READABLE, "One or more targets was not reachable or not present")
    else Condition(READY, TRUE, SUCCEEDED, "All clusters checked")
  }

  /** The status that is published before anything is decided about promotion. */
  function Published(p: Pipeline, w: World, was: PipelineStatus): Option<PipelineStatus> {
    match Collect(p, p.environments, w)
    case None => None
    case Some(c) =>
      Some(PipelineStatus(p.generation, SetCondition(was.conditions, ReadyCondition(c.unready)), c.environments))
  }

  // == The decision ==

  predicate AnyHasRevision(ts: seq<TargetStatus>, revision: string) {
    exists t | t in ts :: t.revision == revision
  }

  predicate AllRunRevision(ts: seq<TargetStatus>, revision: string) {
    forall t | t in ts :: t.revision == revision
  }

  predicate AllReady(ts: seq<TargetStatus>) {
    forall t | t in ts :: t.ready
  }

  function SameRevision(ts: seq<TargetStatus>): string {
    if ts == [] then ""
    else if AllRunRevision(ts, ts[0].revision) then ts[0].revision
    else ""
  }

  /** The message of the pending condition, or None when the first environment is settled. */
  function Waiting(ts: seq<TargetStatus>): Option<string> {
    if SameRevision(ts) == "" then Some(WAITING_FOR_REVISION)
    else if !AllReady(ts) then Some(WAITING_FOR_READY)
    else None
  }

  function PendingCondition(message: string): Condition {
    Condition(PROMOTION_PENDING, TRUE, ENVIRONMENT_NOT_READY, message)
  }

  function MarkPending(s: PipelineStatus, waiting: Option<string>): PipelineStatus {
    match waiting
    case Some(message) => s.(conditions := SetCondition(s.conditions, PendingCondition(message)))
    case None => s.(conditions := RemoveCondition(s.conditions, PROMOTION_PENDING))
  }

  predicate Complete(ts: seq<TargetStatus>, revision: string) {
    AllRunRevision(ts, revision) && AllReady(ts)
  }

  predicate HasStatuses(envs: seq<Environment>, st: map<string, EnvironmentStatus>) {
    forall e | e in envs :: e.name in st
  }

  /** The environment the walk over the later environments stops at for promotion, if any. */
  function NextPromotion(envs: seq<Environment>, st: map<string, EnvironmentStatus>, revision: string)
    : Option<Environment>
    requires HasStatuses(envs, st)
  {
    if envs == [] then None
    else if Complete(st[envs[0].name].targets, revision) then NextPromotion(envs[1..], st, revision)
    else if AnyHasRevision(st[envs[0].name].targets, revision) then None
    else Some(envs[0])
  }

  /** A call of a strategy: what is promoted where, and the configuration handed over. */
  datatype Issue = Issue(environment: Environment, revision: string, config: Promotion)

  datatype End = Ok | Err | Panic

  datatype Result = Result(stored: PipelineStatus, end: End, issued: Option<Issue>)

  function Promote(p: Pipeline, env: Environment, revision: string, io: Io): (End, Option<Issue>) {
    match GetPromotion(p, env.name)
    case None => (Ok, None)
    case Some(promotion) =>
      if !io.registered(promotion) then (Err, None)
      else if p.promotion.None? then (Panic, None)
      else (if io.promote then Ok else Err, Some(Issue(env, revision, p.promotion.value)))
  }

  /** One reconciliation: what is stored afterwards, how the call ended, and the promotion it issued. */
  function Reconciled(p: Pipeline, w: World, was: PipelineStatus, io: Io): Result {
    if p.deleting then Result(was, Ok, None)
    else
      match Published(p, w, was)
      case None => Result(was, Err, None)
      case Some(s) =>
        if !io.publish then Result(was, Err, None)
        else if p.environments == [] then Result(s, Panic, None)
        else CollectCoversAll(p, p.environments, w); Decided(p, s, io)
  }

  function Decided(p: Pipeline, s: PipelineStatus, io: Io): Result
    requires p.environments != [] && HasStatuses(p.environments, s.environments)
  {
    var first := s.environments[p.environments[0].name].targets;
    var waiting := Waiting(first);
    if !io.pending then Result(s, Err, None)
    else if waiting.Some? then Result(MarkPending(s, waiting), Ok, None)
    else
      match NextPromotion(p.environments[1..], s.environments, SameRevision(first))
      case None => Result(MarkPending(s, None), Ok, None)
      case Some(env) =>
        var (end, issued) := Promote(p, env, SameRevision(first), io);
        Result(MarkPending(s, None), end, issued)
  }

  // == The imperative form ==

  /** The pipeline as the API server holds it. */
  class StoredPipeline {
    const spec: Pipeline
    var status: PipelineStatus

    constructor (spec: Pipeline, status: PipelineStatus)
      ensures this.spec == spec && this.status == status
    {
      this.spec := spec;
      this.status := status;
    }
  }

  method SetTargetStatus(statuses: array<TargetStatus>, i: nat, manifest: Value)
    requires i < statuses.Length
    modifies statuses
    ensures statuses[..] == old(statuses[..])[i := AppStatus(old(statuses[i]), manifest)]
  {
    var conds := NestedSlice(manifest, ["status", "conditions"]);
    if conds.None? {
      statuses[i] := statuses[i].(ready := false);
      return;
    }
    statuses[i] := statuses[i].(ready := IsReadyUnstructured(conds.value));
    var revision := NestedString(manifest, ["status", "lastAppliedRevision"]);
    if revision.None? {
      if statuses[i].ready {
        statuses[i] := statuses[i].(error := NO_REVISION);
        statuses[i] := statuses[i].(ready := false);
      }
    } else {
      statuses[i] := statuses[i].(revision := revision.value);
    }
  }

  /** One turn of the loop over the targets of an environment, on the status at its index. */
  method RecordTarget(p: Pipeline, target: Target, w: World, statuses: array<TargetStatus>, i: nat)
    returns (aborted: bool, unreadable: bool)
    requires i < statuses.Length && statuses[i] == TargetStatus(p.appRef, None, false, "", "")
    modifies statuses
    ensures forall j | 0 <= j < statuses.Length && j != i :: statuses[j] == old(statuses[j])
    ensures CheckTarget(p, target, w) == if aborted then Abort else Checked(statuses[i], unreadable)
  {
    aborted, unreadable := false, true;
    if target.clusterRef.Some? {
      statuses[i] := statuses[i].(clusterRef := target.clusterRef);
      var cluster := w.cluster(ClusterKey(p, target.clusterRef.value));
      if cluster.ClusterNotFound? {
        statuses[i] := statuses[i].(error := cluster.message);
        return;
      }
      if cluster.ClusterFailed? {
        return true, false;
      }
      if !IsReady(cluster.conditions) {
        statuses[i] := statuses[i].(error := ClusterNotReady(target.clusterRef.value));
        return;
      }
    }
    var gvk := AppGvk(p.appRef);
    if gvk.None? {
      statuses[i] := statuses[i].(error := NO_OBJECT);
      return;
    }
    var cache := CacheKey(ReadCluster(p, target), gvk.value);
    var reader := w.reader(cache);
    if reader.ReaderFailed? {
      return true, false;
    }
    if reader.NotSynced? {
      statuses[i] := statuses[i].(error := NOT_SYNCED);
      return;
    }
    var app := w.app(cache, ReadKey(p, target));
    if app.AppFailed? {
      statuses[i] := statuses[i].(error := app.message);
      return;
    }
    ghost var before := statuses[..];
    SetTargetStatus(statuses, i, app.manifest);
    assert forall j | 0 <= j < statuses.Length :: statuses[j] == before[i := AppStatus(before[i], app.manifest)][j];
    return false, false;
  }

  method CheckEnvironment(p: Pipeline, env: Environment, w: World)
    returns (aborted: bool, targets: seq<TargetStatus>, unready: bool)
    ensures CheckTargets(p, env.targets, w) == if aborted then None else Some((targets, unready))
  {
    var ts := env.targets;
    var statuses := new TargetStatus[|ts|](i => TargetStatus(p.appRef, None, false, "", ""));
    aborted, targets, unready := false, [], false;
    for i := 0 to |ts|
      invariant CheckTargets(p, ts[..i], w) == Some((statuses[..i], unready))
      invariant forall j :: i <= j < |ts| ==> statuses[j] == TargetStatus(p.appRef, None, false, "", "")
    {
      assert ts[..i + 1][..i] == ts[..i];
      ghost var done := statuses[..i];
      var stop, unreadable := RecordTarget(p, ts[i], w, statuses, i);
      CheckTargetsAborts(p, ts, i + 1, w);
      if stop {
        return true, [], false;
      }
      unready := unready || unreadable;
      assert statuses[..i + 1] == done + [statuses[i]];
    }
    assert ts[..|ts|] == ts;
    targets := statuses[..];
    assert statuses[..|ts|] == targets;
  }

  /** An abort at one target aborts the whole environment. */
  lemma {:induction false} CheckTargetsAborts(p: Pipeline, ts: seq<Target>, n: nat, w: World)
    requires n <= |ts|
    ensures CheckTargets(p, ts[..n], w).None? ==> CheckTargets(p, ts, w).None?
    decreases |ts| - n
  {
    if n < |ts| {
      assert ts[..n + 1][..n] == ts[..n];
      CheckTargetsAborts(p, ts, n + 1, w);
    } else {
      assert ts[..n] == ts;
    }
  }

  lemma {:induction false} CollectAborts(p: Pipeline, envs: seq<Environment>, n: nat, w: World)
    requires n <= |envs|
    ensures Collect(p, envs[..n], w).None? ==> Collect(p, envs, w).None?
    decreases |envs| - n
  {
    if n < |envs| {
      assert envs[..n + 1][..n] == envs[..n];
      CollectAborts(p, envs, n + 1, w);
    } else {
      assert envs[..n] == envs;
    }
  }

  /** Every collected environment has a status, so the decision never misses one. */
  lemma {:induction false} CollectCoversAll(p: Pipeline, envs: seq<Environment>, w: World)
    requires Collect(p, envs, w).Some?
    ensures HasStatuses(envs, Collect(p, envs, w).value.environments)
    ensures forall name | name in Collect(p, envs, w).value.environments ::
      Collect(p, envs, w).value.environments[name].waiting == ""
  {
    if envs != [] {
      CollectCoversAll(p, envs[..|envs| - 1], w);
      assert forall e | e in envs :: e in envs[..|envs| - 1] || e == envs[|envs| - 1];
    }
  }

  method Reconcile(obj: StoredPipeline, w: World, io: Io) returns (end: End, issued: Option<Issue>)
    modifies obj
    ensures Result(obj.status, end, issued) == Reconciled(obj.spec, w, old(obj.status), io)
  {
    var p := obj.spec;
    if p.deleting {
      return Ok, None;
    }
    var status := obj.status;
    var environments: map<string, EnvironmentStatus> := map[];
    var unready := false;
    var envs := p.environments;
    for i := 0 to |envs|
      invariant obj.status == status == old(obj.status)
      invariant Collect(p, envs[..i], w) == Some(Collected(environments, unready))
    {
      assert envs[..i + 1][..i] == envs[..i];
      CollectAborts(p, envs, i + 1, w);
      var aborted, targets, anyUnreadable := CheckEnvironment(p, envs[i], w);
      if aborted {
        return Err, None;
      }
      environments := environments[envs[i].name := EnvironmentStatus("", targets)];
      unready := unready || anyUnreadable;
    }
    assert envs[..|envs|] == envs;
    status := PipelineStatus(p.generation, SetCondition(status.conditions, ReadyCondition(unready)), environments);
    if !io.publish {
      return Err, None;
    }
    obj.status := status;
    if envs == [] {
      return Panic, None;
    }
    CollectCoversAll(p, envs, w);
    var first := status.environments[envs[0].name].targets;
    var latest := SameRevision(first);
    if latest == "" {
      status := status.(conditions := SetCondition(status.conditions, PendingCondition(WAITING_FOR_REVISION)));
      if !io.pending {
        return Err, None;
      }
      obj.status := status;
      return Ok, None;
    }
    if !AllReady(first) {
      status := status.(conditions := SetCondition(status.conditions, PendingCondition(WAITING_FOR_READY)));
      if !io.pending {
        return Err, None;
      }
      obj.status := status;
      return Ok, None;
    }
    status := status.(conditions := RemoveCondition(status.conditions, PROMOTION_PENDING));
    if !io.pending {
      return Err, None;
    }
    obj.status := status;
    end, issued := PromoteFirstLagging(p, status.environments, latest, io);
  }

  /** The walk over the later environments. */
  method PromoteFirstLagging(p: Pipeline, st: map<string, EnvironmentStatus>, latest: string, io: Io)
    returns (end: End, issued: Option<Issue>)
    requires p.environments != [] && HasStatuses(p.environments, st)
    ensures (end, issued) ==
      match NextPromotion(p.environments[1..], st, latest)
      case None => (Ok, None)
      case Some(env) => Promote(p, env, latest, io)
  {
    var later := p.environments[1..];
    for i := 0 to |later|
      invariant NextPromotion(later, st, latest) == NextPromotion(later[i..], st, latest)
    {
      assert later[i..][1..] == later[i + 1..];
      var targets := st[later[i].name].targets;
      if AllRunRevision(targets, latest) && AllReady(targets) {
        continue;
      }
      if AnyHasRevision(targets, latest) {
        return Ok, None;
      }
      var attempt := Promote(p, later[i], latest, io);
      return attempt.0, attempt.1;
    }
    return Ok, None;
  }
}
