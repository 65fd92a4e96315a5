/** The pipeline status as the document the API server stores and patches. */
module StatusCodec {
  import opened Options
  import opened Conditions
  import opened Api
  import opened MergePatch

  datatype Atom =
    | Generation(n: int)
    | ConditionList(conditions: seq<Condition>)
    | Text(text: string)
    | TargetList(targets: seq<TargetStatus>)

  type Json = Doc<Atom>

  function EncodeEnvironment(e: EnvironmentStatus): Json {
    Obj(map[
      "waitingApproval" := Obj(map["revision" := Leaf(Text(e.waiting))]),
      "targets" := Leaf(TargetList(e.targets))])
  }

  function EncodeEnvironments(envs: map<string, EnvironmentStatus>): Json {
    Obj(map env | env in envs :: EncodeEnvironment(envs[env]))
  }

  /** A status without environments has a nil map: its field is null, which a patch treats as absent. */
  function Encode(s: PipelineStatus): Json {
    var rest := map[
      "observedGeneration" := Leaf(Generation(s.observedGeneration)),
      "conditions" := Leaf(ConditionList(s.conditions))];
    Obj(if s.environments == map[] then rest else rest["environments" := EncodeEnvironments(s.environments)])
  }

  function TextAt(d: Json, path: seq<string>): string {
    match LeafAt<Atom>(d, path)
    case Some(Text(text)) => text
    case _ => ""
  }

  function TargetsAt(d: Json, path: seq<string>): seq<TargetStatus> {
    match LeafAt<Atom>(d, path)
    case Some(TargetList(targets)) => targets
    case _ => []
  }

  function DecodeEnvironment(d: Json): EnvironmentStatus {
    EnvironmentStatus(TextAt(d, ["waitingApproval", "revision"]), TargetsAt(d, ["targets"]))
  }

  function DecodeEnvironments(d: Json): map<string, EnvironmentStatus> {
    match At(d, ["environments"])
    case Some(Obj(envs)) => map env | env in envs :: DecodeEnvironment(envs[env])
    case _ => map[]
  }

  function Decode(d: Json): PipelineStatus {
    PipelineStatus(
      match LeafAt<Atom>(d, ["observedGeneration"]) case Some(Generation(n)) => n case _ => 0,
      match LeafAt<Atom>(d, ["conditions"]) case Some(ConditionList(cs)) => cs case _ => [],
      DecodeEnvironments(d))
  }

  lemma AtCons(d: Json, k: string, path: seq<string>)
    ensures At(d, [k] + path) == if d.Obj? && k in d.fields then At(d.fields[k], path) else None
  {
    assert ([k] + path)[0] == k && ([k] + path)[1..] == path;
  }

  lemma At1(d: Json, k: string)
    ensures At(d, [k]) == if d.Obj? && k in d.fields then Some(d.fields[k]) else None
  {
    AtCons(d, k, []);
    assert [k] + [] == [k];
  }

  lemma At2(d: Json, k: string, k': string)
    ensures At(d, [k, k']) == if d.Obj? && k in d.fields then At(d.fields[k], [k']) else None
  {
    AtCons(d, k, [k']);
    assert [k] + [k'] == [k, k'];
  }

  lemma EnvironmentReadsBack(e: EnvironmentStatus)
    ensures DecodeEnvironment(EncodeEnvironment(e)) == e
  {
    var d := EncodeEnvironment(e);
    At2(d, "waitingApproval", "revision");
    At1(d.fields["waitingApproval"], "revision");
    At1(d, "targets");
  }

  lemma StatusReadsBack(s: PipelineStatus)
    ensures Decode(Encode(s)) == s
  {
    var d := Encode(s);
    At1(d, "observedGeneration");
    At1(d, "conditions");
    At1(d, "environments");
    forall env | env in s.environments
      ensures DecodeEnvironments(d)[env] == s.environments[env]
    {
      EnvironmentReadsBack(s.environments[env]);
    }
    assert DecodeEnvironments(d) == s.environments;
  }

  function WaitingPath(env: string): seq<string> {
    ["environments", env] + ["waitingApproval", "revision"]
  }

  /** What the server stores after a status patch computed from `base` to `next`, on top of `current`. */
  function PatchStatus(current: PipelineStatus, base: PipelineStatus, next: PipelineStatus): PipelineStatus {
    Decode(Patched(Encode(current), Encode(base), Encode(next)))
  }

  lemma WaitingIsALeaf(d: Json, env: string)
    ensures GetWaitingApproval(DecodeEnvironments(d), env) == TextAt(d, WaitingPath(env))
  {
    At1(d, "environments");
    assert WaitingPath(env) == ["environments"] + ([env] + ["waitingApproval", "revision"]);
    AtCons(d, "environments", [env] + ["waitingApproval", "revision"]);
    if d.Obj? && "environments" in d.fields {
      AtCons(d.fields["environments"], env, ["waitingApproval", "revision"]);
    }
  }

  /** A waiting revision after a patch was waiting on the server, or in the status the patch was computed for. */
  lemma PatchedWaitingComesFrom(current: PipelineStatus, base: PipelineStatus, next: PipelineStatus, env: string)
    requires GetWaitingApproval(PatchStatus(current, base, next).environments, env) != ""
    ensures var revision := GetWaitingApproval(PatchStatus(current, base, next).environments, env);
      || revision == GetWaitingApproval(current.environments, env)
      || revision == GetWaitingApproval(next.environments, env)
  {
    var merged := Patched(Encode(current), Encode(base), Encode(next));
    WaitingIsALeaf(merged, env);
    WaitingIsALeaf(Encode(current), env);
    WaitingIsALeaf(Encode(next), env);
    StatusReadsBack(current);
    StatusReadsBack(next);
    PatchedLeafComesFrom(Encode(current), Encode(base), Encode(next), WaitingPath(env));
  }

  lemma EnvironmentIsNullFree(e: EnvironmentStatus)
    ensures NullFree(EncodeEnvironment(e))
  {
    var d := EncodeEnvironment(e);
    assert NullFree(d.fields["waitingApproval"]) && NullFree(d.fields["targets"]);
  }

  lemma EncodedIsNullFree(s: PipelineStatus)
    ensures NullFree(Encode(s))
    ensures NullFree(EncodeEnvironments(s.environments))
  {
    forall env | env in s.environments
      ensures NullFree(EncodeEnvironment(s.environments[env]))
    {
      EnvironmentIsNullFree(s.environments[env]);
    }
    var d := Encode(s);
    assert NullFree(d.fields["observedGeneration"]) && NullFree(d.fields["conditions"]);
    assert NullFree(EncodeEnvironments(s.environments));
  }

  /** With nothing in between, the status that was sent is the status that is stored. */
  lemma PatchStoresNext(base: PipelineStatus, next: PipelineStatus)
    ensures PatchStatus(base, base, next) == next
  {
    EncodedIsNullFree(next);
    PatchReachesNext(Encode(base), Encode(next));
    StatusReadsBack(next);
  }

  // == The waiting revision after a patch ==

  /** The waiting revision in an encoded environment status. */
  function WaitingIn(d: Option<Json>): string {
    match Field<Atom>(Field(d, "waitingApproval"), "revision")
    case Some(Leaf(Text(text))) => text
    case _ => ""
  }

  lemma WaitingInEnvironments(d: Json, env: string)
    ensures GetWaitingApproval(DecodeEnvironments(d), env) == WaitingIn(Field(Field(Some(d), "environments"), env))
  {
    At1(d, "environments");
    if d.Obj? && "environments" in d.fields {
      var envs := d.fields["environments"];
      if envs.Obj? && env in envs.fields {
        var e := envs.fields[env];
        At2(e, "waitingApproval", "revision");
        if e.Obj? && "waitingApproval" in e.fields {
          At1(e.fields["waitingApproval"], "revision");
        }
      }
    }
  }

  lemma EncodedEnvironment(s: PipelineStatus, env: string)
    ensures Field(Field(Some(Encode(s)), "environments"), env)
         == if env in s.environments then Some(EncodeEnvironment(s.environments[env])) else None
    ensures WaitingIn(Field(Field(Some(Encode(s)), "environments"), env)) == GetWaitingApproval(s.environments, env)
  {
  }

  /** An environment that both statuses have: its revision is sent only when it differs. */
  lemma WaitingUpdated(current: Option<Json>, was: EnvironmentStatus, next: EnvironmentStatus)
    ensures WaitingIn(Updated(current, EncodeEnvironment(was), EncodeEnvironment(next)))
         == if was.waiting == next.waiting then WaitingIn(current) else next.waiting
  {
    var b, n := EncodeEnvironment(was), EncodeEnvironment(next);
    EnvironmentIsNullFree(next);
    FieldUpdated(current, b, n, "waitingApproval");
    var inner := Field(current, "waitingApproval");
    FieldUpdated(inner, b.fields["waitingApproval"], n.fields["waitingApproval"], "revision");
  }

  /** An environment that is new to the sender is sent as a whole. */
  lemma WaitingSent(current: Option<Json>, next: EnvironmentStatus)
    ensures WaitingIn(Some(Merge(current, EncodeEnvironment(next)))) == next.waiting
  {
    var n := EncodeEnvironment(next);
    EnvironmentIsNullFree(next);
    FieldMerged(current, n, "waitingApproval");
    FieldMerged(Field(current, "waitingApproval"), n.fields["waitingApproval"], "revision");
  }

  /**
   What waits after a patch. An environment the sender drops is removed, and all of them if it has none left; the
   server's revision survives exactly where the sender has the same one in both statuses, or none in either.
   */
  function WaitingAfterPatch(
      current: PipelineStatus, base: PipelineStatus, next: PipelineStatus, env: string): string
  {
    if env in next.environments then
      if env in base.environments && base.environments[env].waiting == next.environments[env].waiting
      then GetWaitingApproval(current.environments, env)
      else next.environments[env].waiting
    else if env in base.environments || (next.environments == map[] && base.environments != map[]) then ""
    else GetWaitingApproval(current.environments, env)
  }

  lemma PatchedWaiting(current: PipelineStatus, base: PipelineStatus, next: PipelineStatus, env: string)
    ensures GetWaitingApproval(PatchStatus(current, base, next).environments, env)
         == WaitingAfterPatch(current, base, next, env)
  {
    var c, b, n := Some(Encode(current)), Encode(base), Encode(next);
    var envs := Field(c, "environments");
    EncodedIsNullFree(next);
    FieldUpdated(c, b, n, "environments");
    WaitingInEnvironments(Patched(c.value, b, n), env);
    EncodedEnvironment(current, env);
    if next.environments != map[] {
      var sent := EncodeEnvironments(next.environments);
      if base.environments != map[] {
        FieldUpdated(envs, EncodeEnvironments(base.environments), sent, env);
        if env in next.environments && env in base.environments {
          WaitingUpdated(Field(envs, env), base.environments[env], next.environments[env]);
        }
      } else {
        FieldMerged(envs, sent, env);
      }
      if env in next.environments {
        WaitingSent(Field(envs, env), next.environments[env]);
      }
    }
  }
}
