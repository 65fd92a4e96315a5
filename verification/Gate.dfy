/**
 The manual approval gate under concurrency. Requests to the two webhooks and status write-backs of the reconcilers
 interleave on one stored status. A read may return any version that was ever stored; an update stores only on top
 of the latest version; a merge patch needs no version at all.
 */
module Gate {
  import opened Api
  import opened Handlers
  import opened StatusCodec

  /** A request or reconciliation in progress. */
  datatype Call =
    | Recording(env: Environment, from: string, event: Event)
    | Recorder(env: Environment, from: string, event: Event, version: nat)
    | Promoting(env: Environment, revision: string)
    | Approving(env: Environment, revision: string)
    | Approved(env: Environment, revision: string)
    | Resetter(env: Environment, revision: string, version: nat)
    | WritingBack(next: PipelineStatus)
    | Patcher(next: PipelineStatus, base: nat)

  /** What happened, in order: recordings, calls of a strategy by either webhook, and successful approvals. */
  datatype Entry =
    | Recorded(env: Environment, from: string, event: Event)
    | PromotedAutomatically(env: Environment, revision: string)
    | PromotedByApproval(env: Environment, revision: string)
    | Succeeded(env: Environment, revision: string)

  /** `versions` are all statuses stored so far; the last one is current. */
  datatype State = State(versions: seq<PipelineStatus>, calls: map<nat, Call>, log: seq<Entry>)

  function Current(s: State): PipelineStatus
    requires s.versions != []
  {
    s.versions[|s.versions| - 1]
  }

  datatype Step =
    | StartPromotion(w: nat, from: string, event: Event)
    | ReadToRecord(w: nat, version: nat)
    | UpdateToRecord(w: nat)
    | AttemptPromotion(w: nat, again: bool)
    | StartApproval(w: nat, env: string, revision: string, version: nat)
    | PromoteApproved(w: nat, ok: bool)
    | ReadToReset(w: nat, version: nat)
    | UpdateToReset(w: nat)
    | Reconcile(w: nat, version: nat, next: PipelineStatus)
    | ReadToPatch(w: nat, version: nat)
    | Patch(w: nat)
    | Fail(w: nat)

  /** A reconciler's new status keeps each waiting revision of the status it read, or empties it. */
  ghost predicate KeepsOrDrops(was: PipelineStatus, next: PipelineStatus) {
    forall env | GetWaitingApproval(next.environments, env) != "" ::
      GetWaitingApproval(next.environments, env) == GetWaitingApproval(was.environments, env)
  }

  predicate Manual(p: Pipeline, env: Environment) {
    GetPromotion(p, env.name).Some? && GetPromotion(p, env.name).value.manual
  }

  ghost predicate Enabled(p: Pipeline, s: State, step: Step) {
    && s.versions != []
    && match step
       case StartPromotion(w, from, event) =>
         w !in s.calls && event.revision != "" && LookupNext(p, from, event.involved).Some?
         && GetPromotion(p, LookupNext(p, from, event.involved).value.name).Some?
       case ReadToRecord(w, version) => w in s.calls && s.calls[w].Recording? && version < |s.versions|
       case UpdateToRecord(w) => w in s.calls && s.calls[w].Recorder? && s.calls[w].version < |s.versions|
       case AttemptPromotion(w, _) => w in s.calls && s.calls[w].Promoting?
       case StartApproval(w, env, revision, version) =>
         w !in s.calls && revision != "" && version < |s.versions|
         && GetWaitingApproval(s.versions[version].environments, env) == revision
         && LookupEnvironment(p, env).Some? && GetPromotion(p, env).Some?
       case PromoteApproved(w, _) => w in s.calls && s.calls[w].Approving?
       case ReadToReset(w, version) => w in s.calls && s.calls[w].Approved? && version < |s.versions|
       case UpdateToReset(w) => w in s.calls && s.calls[w].Resetter? && s.calls[w].version < |s.versions|
       case Reconcile(w, version, next) =>
         w !in s.calls && version < |s.versions| && KeepsOrDrops(s.versions[version], next)
       case ReadToPatch(w, version) => w in s.calls && s.calls[w].WritingBack? && version < |s.versions|
       case Patch(w) => w in s.calls && s.calls[w].Patcher? && s.calls[w].base < |s.versions|
       case Fail(w) => w in s.calls
  }

  function SetCall(s: State, w: nat, c: Call): State {
    s.(calls := s.calls[w := c])
  }

  function EndCall(s: State, w: nat): State {
    s.(calls := s.calls - {w})
  }

  /** An update of a version that is not the latest is a conflict: nothing is stored. */
  function Update(s: State, version: nat, env: string, revision: string, entry: Entry): State
    requires version < |s.versions|
  {
    if version == |s.versions| - 1 then
      s.(versions := s.versions + [Store(s.versions[version], env, revision)], log := s.log + [entry])
    else s
  }

  ghost function Apply(p: Pipeline, s: State, step: Step): State
    requires Enabled(p, s, step)
  {
    match step
    case StartPromotion(w, from, event) =>
      var env := LookupNext(p, from, event.involved).value;
      SetCall(s, w, if Manual(p, env) then Recording(env, from, event) else Promoting(env, event.revision))
    case ReadToRecord(w, version) =>
      var c := s.calls[w];
      SetCall(s, w, Recorder(c.env, c.from, c.event, version))
    case UpdateToRecord(w) =>
      var c := s.calls[w];
      EndCall(Update(s, c.version, c.env.name, c.event.revision, Recorded(c.env, c.from, c.event)), w)
    case AttemptPromotion(w, again) =>
      var c := s.calls[w];
      var s' := s.(log := s.log + [PromotedAutomatically(c.env, c.revision)]);
      if again then s' else EndCall(s', w)
    case StartApproval(w, env, revision, version) =>
      SetCall(s, w, Approving(LookupEnvironment(p, env).value, revision))
    case PromoteApproved(w, ok) =>
      var c := s.calls[w];
      var s' := s.(log := s.log + [PromotedByApproval(c.env, c.revision)]);
      if ok then SetCall(s', w, Approved(c.env, c.revision)) else EndCall(s', w)
    case ReadToReset(w, version) =>
      var c := s.calls[w];
      SetCall(s, w, Resetter(c.env, c.revision, version))
    case UpdateToReset(w) =>
      var c := s.calls[w];
      EndCall(Update(s, c.version, c.env.name, "", Succeeded(c.env, c.revision)), w)
    case Reconcile(w, _, next) => SetCall(s, w, WritingBack(next))
    case ReadToPatch(w, version) => SetCall(s, w, Patcher(s.calls[w].next, version))
    case Patch(w) =>
      var c := s.calls[w];
      EndCall(s.(versions := s.versions + [PatchStatus(Current(s), s.versions[c.base], c.next)]), w)
    case Fail(w) => EndCall(s, w)
  }

  // == What every interleaving keeps ==

  /** A matching event from the environment just before `env` asked for `revision`, and `env` is manual. */
  ghost predicate AskedFor(p: Pipeline, env: Environment, from: string, event: Event) {
    && event.revision != ""
    && Manual(p, env)
    && exists k :: PromotesFrom(p, k, from, event.involved) && env == p.environments[k + 1]
  }

  ghost predicate WasRecorded(log: seq<Entry>, env: string, revision: string) {
    exists i :: 0 <= i < |log| && log[i].Recorded? && log[i].env.name == env && log[i].event.revision == revision
  }

  ghost predicate AllRecorded(log: seq<Entry>, s: PipelineStatus) {
    forall env | GetWaitingApproval(s.environments, env) != "" ::
      WasRecorded(log, env, GetWaitingApproval(s.environments, env))
  }

  ghost predicate CallOk(p: Pipeline, log: seq<Entry>, c: Call) {
    match c
    case Recording(env, from, event) => AskedFor(p, env, from, event)
    case Recorder(env, from, event, _) => AskedFor(p, env, from, event)
    case Promoting(env, _) => !Manual(p, env)
    case Approving(env, revision) => revision != "" && WasRecorded(log, env.name, revision)
    case Approved(_, _) => true
    case Resetter(_, _, _) => true
    case WritingBack(next) => AllRecorded(log, next)
    case Patcher(next, _) => AllRecorded(log, next)
  }

  /** What may stand at one place of the log, given what stands before it. */
  ghost predicate EntryOk(p: Pipeline, before: seq<Entry>, e: Entry) {
    match e
    case Recorded(env, from, event) => AskedFor(p, env, from, event)
    case PromotedAutomatically(env, _) => !Manual(p, env)
    case PromotedByApproval(env, revision) => revision != "" && WasRecorded(before, env.name, revision)
    case Succeeded(_, _) => true
  }

  ghost predicate Inv(p: Pipeline, s: State) {
    && s.versions != []
    && (forall v :: 0 <= v < |s.versions| ==> AllRecorded(s.log, s.versions[v]))
    && (forall w :: w in s.calls ==> CallOk(p, s.log, s.calls[w]))
    && (forall i :: 0 <= i < |s.log| ==> EntryOk(p, s.log[..i], s.log[i]))
  }

  lemma LongerLogKeeps(p: Pipeline, log: seq<Entry>, e: Entry)
    ensures forall env, revision :: WasRecorded(log, env, revision) ==> WasRecorded(log + [e], env, revision)
    ensures forall s :: AllRecorded(log, s) ==> AllRecorded(log + [e], s)
    ensures forall c :: CallOk(p, log, c) ==> CallOk(p, log + [e], c)
  {
    forall env, revision | WasRecorded(log, env, revision)
      ensures WasRecorded(log + [e], env, revision)
    {
      var i :| 0 <= i < |log| && log[i].Recorded? && log[i].env.name == env && log[i].event.revision == revision;
      assert (log + [e])[i] == log[i];
    }
  }

  /** Appending an entry that may stand there. */
  lemma LoggingKeepsInv(p: Pipeline, s: State, e: Entry)
    requires Inv(p, s) && EntryOk(p, s.log, e)
    ensures Inv(p, s.(log := s.log + [e]))
  {
    LongerLogKeeps(p, s.log, e);
    var log := s.log + [e];
    forall i | 0 <= i < |log|
      ensures EntryOk(p, log[..i], log[i])
    {
      assert log[..i] == s.log[..i];
      assert i == |s.log| ==> log[..i] == s.log;
    }
  }

  lemma StoringKeepsInv(p: Pipeline, s: State, next: PipelineStatus)
    requires Inv(p, s) && AllRecorded(s.log, next)
    ensures Inv(p, s.(versions := s.versions + [next]))
  {
  }

  lemma SetCallKeepsInv(p: Pipeline, s: State, w: nat, c: Call)
    requires Inv(p, s) && CallOk(p, s.log, c)
    ensures Inv(p, SetCall(s, w, c))
  {
  }

  lemma EndCallKeepsInv(p: Pipeline, s: State, w: nat)
    requires Inv(p, s)
    ensures Inv(p, EndCall(s, w))
  {
  }

  lemma UpdateKeepsInv(p: Pipeline, s: State, version: nat, env: string, revision: string, entry: Entry)
    requires Inv(p, s) && version < |s.versions| && EntryOk(p, s.log, entry)
    requires revision != "" ==> WasRecorded(s.log + [entry], env, revision)
    ensures Inv(p, Update(s, version, env, revision, entry))
  {
    if version == |s.versions| - 1 {
      LoggingKeepsInv(p, s, entry);
      var logged := s.(log := s.log + [entry]);
      var next := Store(s.versions[version], env, revision);
      forall env' | GetWaitingApproval(next.environments, env') != ""
        ensures WasRecorded(logged.log, env', GetWaitingApproval(next.environments, env'))
      {
        if env' != env {
          assert AllRecorded(logged.log, logged.versions[version]);
          assert GetWaitingApproval(next.environments, env')
              == GetWaitingApproval(logged.versions[version].environments, env');
        }
      }
      StoringKeepsInv(p, logged, next);
    }
  }

  lemma PatchedIsRecorded(log: seq<Entry>, current: PipelineStatus, base: PipelineStatus, next: PipelineStatus)
    requires AllRecorded(log, current) && AllRecorded(log, next)
    ensures AllRecorded(log, PatchStatus(current, base, next))
  {
    forall env | GetWaitingApproval(PatchStatus(current, base, next).environments, env) != ""
      ensures WasRecorded(log, env, GetWaitingApproval(PatchStatus(current, base, next).environments, env))
    {
      PatchedWaitingComesFrom(current, base, next, env);
    }
  }

  lemma StepKeepsInv(p: Pipeline, s: State, step: Step)
    requires Inv(p, s) && Enabled(p, s, step)
    ensures Inv(p, Apply(p, s, step))
  {
    var s' := Apply(p, s, step);
    match step
    case StartPromotion(w, from, event) =>
      LookupNextIsNext(p, from, event.involved, LookupNext(p, from, event.involved).value);
      SetCallKeepsInv(p, s, w, s'.calls[w]);
    case ReadToRecord(w, _) => SetCallKeepsInv(p, s, w, s'.calls[w]);
    case UpdateToRecord(w) =>
      var c := s.calls[w];
      var e := Recorded(c.env, c.from, c.event);
      assert CallOk(p, s.log, c);
      assert (s.log + [e])[|s.log|] == e;
      UpdateKeepsInv(p, s, c.version, c.env.name, c.event.revision, e);
      EndCallKeepsInv(p, Update(s, c.version, c.env.name, c.event.revision, e), w);
    case AttemptPromotion(w, _) =>
      var c := s.calls[w];
      assert CallOk(p, s.log, c);
      var e := PromotedAutomatically(c.env, c.revision);
      LoggingKeepsInv(p, s, e);
      EndCallKeepsInv(p, s.(log := s.log + [e]), w);
    case StartApproval(w, env, revision, version) =>
      assert AllRecorded(s.log, s.versions[version]);
      SetCallKeepsInv(p, s, w, s'.calls[w]);
    case PromoteApproved(w, _) =>
      var c := s.calls[w];
      assert CallOk(p, s.log, c);
      var e := PromotedByApproval(c.env, c.revision);
      LoggingKeepsInv(p, s, e);
      SetCallKeepsInv(p, s.(log := s.log + [e]), w, Approved(c.env, c.revision));
      EndCallKeepsInv(p, s.(log := s.log + [e]), w);
    case ReadToReset(w, _) => SetCallKeepsInv(p, s, w, s'.calls[w]);
    case UpdateToReset(w) =>
      var c := s.calls[w];
      UpdateKeepsInv(p, s, c.version, c.env.name, "", Succeeded(c.env, c.revision));
      EndCallKeepsInv(p, Update(s, c.version, c.env.name, "", Succeeded(c.env, c.revision)), w);
    case Reconcile(w, version, next) =>
      assert AllRecorded(s.log, s.versions[version]);
      SetCallKeepsInv(p, s, w, s'.calls[w]);
    case ReadToPatch(w, _) =>
      assert CallOk(p, s.log, s.calls[w]);
      SetCallKeepsInv(p, s, w, s'.calls[w]);
    case Patch(w) =>
      var c := s.calls[w];
      assert CallOk(p, s.log, c) && AllRecorded(s.log, Current(s));
      PatchedIsRecorded(s.log, Current(s), s.versions[c.base], c.next);
      StoringKeepsInv(p, s, PatchStatus(Current(s), s.versions[c.base], c.next));
      EndCallKeepsInv(p, s.(versions := s.versions + [PatchStatus(Current(s), s.versions[c.base], c.next)]), w);
    case Fail(w) => EndCallKeepsInv(p, s, w);
  }

  // == Runs ==

  /** Nothing waits at the start, and no request is being served. */
  ghost predicate Init(s: State) {
    && |s.versions| == 1 && s.calls == map[] && s.log == []
    && forall env :: GetWaitingApproval(s.versions[0].environments, env) == ""
  }

  ghost predicate IsRun(p: Pipeline, run: seq<State>, steps: seq<Step>) {
    && |run| == |steps| + 1 && Init(run[0])
    && forall n | 0 <= n < |steps| :: StepAt(p, run, steps, n)
  }

  ghost predicate StepAt(p: Pipeline, run: seq<State>, steps: seq<Step>, n: int) {
    0 <= n < |steps| == |run| - 1 && Enabled(p, run[n], steps[n]) && run[n + 1] == Apply(p, run[n], steps[n])
  }

  lemma {:induction false} EveryRunKeepsInv(p: Pipeline, run: seq<State>, steps: seq<Step>, n: nat)
    requires IsRun(p, run, steps) && n < |run|
    ensures Inv(p, run[n])
  {
    if n > 0 {
      EveryRunKeepsInv(p, run, steps, n - 1);
      assert StepAt(p, run, steps, n - 1);
      StepKeepsInv(p, run[n - 1], steps[n - 1]);
    }
  }

  /** Entry `i` records a matching event from the environment just before `env`, which asked for the revision. */
  ghost predicate RecordedAt(p: Pipeline, log: seq<Entry>, i: int, env: string, revision: string) {
    && 0 <= i < |log| && log[i].Recorded? && log[i].env.name == env && log[i].event.revision == revision
    && exists k :: PromotesFrom(p, k, log[i].from, log[i].event.involved) && log[i].env == p.environments[k + 1]
  }

  /**
   The manual gate: in every interleaving, the promotion webhook never promotes a manual environment, and the approval
   webhook promotes only a non-empty revision recorded before for an event from the preceding environment.
   */
  lemma ManualEnvironmentsNeedRecordedRevision(p: Pipeline, run: seq<State>, steps: seq<Step>, n: nat, j: nat)
    requires IsRun(p, run, steps) && n < |run| && j < |run[n].log|
    ensures run[n].log[j].PromotedAutomatically? ==> !Manual(p, run[n].log[j].env)
    ensures run[n].log[j].PromotedByApproval? ==> run[n].log[j].revision != ""
    ensures run[n].log[j].PromotedByApproval? ==>
      exists i :: i < j && RecordedAt(p, run[n].log, i, run[n].log[j].env.name, run[n].log[j].revision)
  {
    EveryRunKeepsInv(p, run, steps, n);
    var log := run[n].log;
    assert EntryOk(p, log[..j], log[j]);
    if log[j].PromotedByApproval? {
      var i :| 0 <= i < |log[..j]| && log[..j][i].Recorded? && log[..j][i].env.name == log[j].env.name
            && log[..j][i].event.revision == log[j].revision;
      assert EntryOk(p, log[..i], log[i]);
      assert RecordedAt(p, log, i, log[j].env.name, log[j].revision);
    }
  }
}
