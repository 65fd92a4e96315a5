/**
 Whether approvals are consumed. Recordings, successful approvals and what still waits are kept in balance by every
 step of the gate but three kinds: a reset that finds nothing to consume, a write-back that makes a consumed revision
 wait again, and a step that drops a revision without an approval.
 */
module Consumption {
  import opened Options
  import opened Api
  import opened StatusCodec
  import opened Handlers
  import opened Gate

  /** What is counted: all revisions of one environment, or a single one. */
  datatype Scope = Scope(env: string, only: Option<string>) {
    predicate Has(env: string, revision: string) {
      env == this.env && revision != "" && (only.Some? ==> revision == only.value)
    }
  }

  function CountRecordings(log: seq<Entry>, scope: Scope): nat {
    if log == [] then 0
    else
      var e := log[|log| - 1];
      CountRecordings(log[..|log| - 1], scope) + if e.Recorded? && scope.Has(e.env.name, e.event.revision) then 1 else 0
  }

  function CountSuccesses(log: seq<Entry>, scope: Scope): nat {
    if log == [] then 0
    else
      var e := log[|log| - 1];
      CountSuccesses(log[..|log| - 1], scope) + if e.Succeeded? && scope.Has(e.env.name, e.revision) then 1 else 0
  }

  predicate Waits(s: PipelineStatus, scope: Scope) {
    scope.Has(scope.env, GetWaitingApproval(s.environments, scope.env))
  }

  function One(b: bool): nat {
    if b then 1 else 0
  }

  // == The steps that upset the balance ==

  /** The reset of a served approval is stored. */
  predicate Resets(s: State, step: Step) {
    && s.versions != [] && step.UpdateToReset? && step.w in s.calls && s.calls[step.w].Resetter?
    && s.calls[step.w].version == |s.versions| - 1
  }

  predicate Records(s: State, step: Step) {
    && s.versions != [] && step.UpdateToRecord? && step.w in s.calls && s.calls[step.w].Recorder?
    && s.calls[step.w].version == |s.versions| - 1
  }

  predicate Patches(s: State, step: Step) {
    && s.versions != [] && step.Patch? && step.w in s.calls && s.calls[step.w].Patcher?
    && s.calls[step.w].base < |s.versions|
  }

  /** What waits in an environment after a stored patch. */
  function PatchedRevision(s: State, step: Step, env: string): string
    requires Patches(s, step)
  {
    var c := s.calls[step.w];
    WaitingAfterPatch(Current(s), s.versions[c.base], c.next, env)
  }

  /** A success is answered although its revision no longer waits. */
  predicate StaleReset(s: State, step: Step, scope: Scope) {
    && Resets(s, step)
    && scope.Has(s.calls[step.w].env.name, s.calls[step.w].revision)
    && !Waits(Current(s), scope)
  }

  /** A write-back makes a revision wait that did not. */
  predicate Restores(s: State, step: Step, scope: Scope) {
    && Patches(s, step)
    && !Waits(Current(s), scope) && scope.Has(scope.env, PatchedRevision(s, step, scope.env))
  }

  predicate Unbacked(s: State, step: Step, scope: Scope) {
    StaleReset(s, step, scope) || Restores(s, step, scope)
  }

  /** A waiting revision is overwritten, reset for the approval of another one, or removed by a write-back. */
  predicate Drops(s: State, step: Step, scope: Scope) {
    || (Records(s, step) && s.calls[step.w].env.name == scope.env && Waits(Current(s), scope))
    || (Resets(s, step) && s.calls[step.w].env.name == scope.env && Waits(Current(s), scope)
        && !scope.Has(scope.env, s.calls[step.w].revision))
    || (Patches(s, step) && Waits(Current(s), scope) && !scope.Has(scope.env, PatchedRevision(s, step, scope.env)))
  }

  lemma LoggingCounts(log: seq<Entry>, e: Entry, scope: Scope)
    ensures CountRecordings(log + [e], scope)
         == CountRecordings(log, scope) + One(e.Recorded? && scope.Has(e.env.name, e.event.revision))
    ensures CountSuccesses(log + [e], scope)
         == CountSuccesses(log, scope) + One(e.Succeeded? && scope.Has(e.env.name, e.revision))
  {
    assert (log + [e])[..|log|] == log;
  }

  /** Recordings that are neither approved nor still waiting. */
  function Slack(s: State, scope: Scope): int
    requires s.versions != []
  {
    CountRecordings(s.log, scope) - CountSuccesses(s.log, scope) - One(Waits(Current(s), scope))
  }

  /** What one step should do to the slack. */
  ghost predicate SlackMoves(p: Pipeline, s: State, step: Step, scope: Scope)
    requires Enabled(p, s, step)
  {
    var s' := Apply(p, s, step);
    s'.versions != []
    && Slack(s', scope) == Slack(s, scope) + One(Drops(s, step, scope)) - One(Unbacked(s, step, scope))
  }

  lemma StoringMovesSlack(s: State, s': State, e: Entry, next: PipelineStatus, scope: Scope)
    requires s.versions != [] && s'.versions == s.versions + [next] && s'.log == s.log + [e]
    ensures Slack(s', scope) == Slack(s, scope)
        + One(e.Recorded? && scope.Has(e.env.name, e.event.revision))
        - One(e.Succeeded? && scope.Has(e.env.name, e.revision))
        + One(Waits(Current(s), scope)) - One(Waits(next, scope))
  {
    LoggingCounts(s.log, e, scope);
    hide CountRecordings, CountSuccesses, Waits;
  }

  lemma StoredWaits(s: PipelineStatus, env: string, revision: string, scope: Scope)
    ensures Waits(Store(s, env, revision), scope)
      <==> if env == scope.env then scope.Has(env, revision) else Waits(s, scope)
  {
  }

  lemma RecordMovesSlack(p: Pipeline, s: State, w: nat, scope: Scope)
    requires Enabled(p, s, UpdateToRecord(w))
    ensures SlackMoves(p, s, UpdateToRecord(w), scope)
  {
    var c, s' := s.calls[w], Apply(p, s, UpdateToRecord(w));
    if c.version == |s.versions| - 1 {
      var next := Store(Current(s), c.env.name, c.event.revision);
      assert s'.versions == s.versions + [next] && s'.log == s.log + [Recorded(c.env, c.from, c.event)];
      StoredWaits(Current(s), c.env.name, c.event.revision, scope);
      hide Slack, Waits, Store;
      StoringMovesSlack(s, s', Recorded(c.env, c.from, c.event), next, scope);
    }
  }

  lemma ResetMovesSlack(p: Pipeline, s: State, w: nat, scope: Scope)
    requires Enabled(p, s, UpdateToReset(w))
    ensures SlackMoves(p, s, UpdateToReset(w), scope)
  {
    var c, s' := s.calls[w], Apply(p, s, UpdateToReset(w));
    if c.version == |s.versions| - 1 {
      var next := Store(Current(s), c.env.name, "");
      assert s'.versions == s.versions + [next] && s'.log == s.log + [Succeeded(c.env, c.revision)];
      StoredWaits(Current(s), c.env.name, "", scope);
      hide Slack, Waits, Store;
      StoringMovesSlack(s, s', Succeeded(c.env, c.revision), next, scope);
    }
  }

  lemma PatchMovesSlack(p: Pipeline, s: State, w: nat, scope: Scope)
    requires Enabled(p, s, Patch(w))
    ensures SlackMoves(p, s, Patch(w), scope)
  {
    var c := s.calls[w];
    PatchedWaiting(Current(s), s.versions[c.base], c.next, scope.env);
  }

  lemma LoggingPromotionKeepsSlack(s: State, s': State, e: Entry, scope: Scope)
    requires s.versions != [] && s'.versions == s.versions && s'.log == s.log + [e]
    requires e.PromotedAutomatically? || e.PromotedByApproval?
    ensures Slack(s', scope) == Slack(s, scope)
  {
    LoggingCounts(s.log, e, scope);
  }

  lemma PromotionMovesNoSlack(p: Pipeline, s: State, step: Step, scope: Scope)
    requires Enabled(p, s, step) && (step.AttemptPromotion? || step.PromoteApproved?)
    ensures SlackMoves(p, s, step, scope)
  {
    var c, s' := s.calls[step.w], Apply(p, s, step);
    var e := if step.AttemptPromotion? then PromotedAutomatically(c.env, c.revision)
             else PromotedByApproval(c.env, c.revision);
    assert s'.versions == s.versions && s'.log == s.log + [e];
    hide Slack, Waits;
    LoggingPromotionKeepsSlack(s, s', e, scope);
  }

  lemma QuietStepMovesNoSlack(p: Pipeline, s: State, step: Step, scope: Scope)
    requires Enabled(p, s, step) && Apply(p, s, step).versions == s.versions && Apply(p, s, step).log == s.log
    requires !step.UpdateToRecord? && !step.UpdateToReset? && !step.Patch?
    ensures SlackMoves(p, s, step, scope)
  {
  }

  lemma StepMovesSlack(p: Pipeline, s: State, step: Step, scope: Scope)
    requires Enabled(p, s, step)
    ensures SlackMoves(p, s, step, scope)
  {
    hide SlackMoves;
    match step
    case UpdateToRecord(w) => RecordMovesSlack(p, s, w, scope);
    case UpdateToReset(w) => ResetMovesSlack(p, s, w, scope);
    case Patch(w) => PatchMovesSlack(p, s, w, scope);
    case AttemptPromotion(_, _) => PromotionMovesNoSlack(p, s, step, scope);
    case PromoteApproved(_, _) => PromotionMovesNoSlack(p, s, step, scope);
    case _ => QuietStepMovesNoSlack(p, s, step, scope);
  }

  // == Runs ==

  function UnbackedSteps(run: seq<State>, steps: seq<Step>, n: nat, scope: Scope): nat
    requires n <= |steps| <= |run|
  {
    if n == 0 then 0
    else UnbackedSteps(run, steps, n - 1, scope) + One(Unbacked(run[n - 1], steps[n - 1], scope))
  }

  function DroppingSteps(run: seq<State>, steps: seq<Step>, n: nat, scope: Scope): nat
    requires n <= |steps| <= |run|
  {
    if n == 0 then 0
    else DroppingSteps(run, steps, n - 1, scope) + One(Drops(run[n - 1], steps[n - 1], scope))
  }

  /** Conservation: in every interleaving each recording is approved, waits, or was dropped, up to unbacked steps. */
  lemma {:induction false} EveryRunBalances(p: Pipeline, run: seq<State>, steps: seq<Step>, n: nat, scope: Scope)
    requires IsRun(p, run, steps) && n <= |steps|
    ensures run[n].versions != []
    ensures CountRecordings(run[n].log, scope) + UnbackedSteps(run, steps, n, scope)
         == CountSuccesses(run[n].log, scope) + One(Waits(Current(run[n]), scope)) + DroppingSteps(run, steps, n, scope)
  {
    if n > 0 {
      EveryRunBalances(p, run, steps, n - 1, scope);
      assert StepAt(p, run, steps, n - 1);
      StepMovesSlack(p, run[n - 1], steps[n - 1], scope);
    }
  }

  ghost predicate SomeUnbacked(run: seq<State>, steps: seq<Step>, n: nat, scope: Scope)
    requires n <= |steps| <= |run|
  {
    exists m :: 0 <= m < n && Unbacked(run[m], steps[m], scope)
  }

  ghost predicate SomeDrops(run: seq<State>, steps: seq<Step>, n: nat, scope: Scope)
    requires n <= |steps| <= |run|
  {
    exists m :: 0 <= m < n && Drops(run[m], steps[m], scope)
  }

  lemma {:induction false} CountsTell(run: seq<State>, steps: seq<Step>, n: nat, scope: Scope)
    requires n <= |steps| <= |run|
    ensures UnbackedSteps(run, steps, n, scope) > 0 <==> SomeUnbacked(run, steps, n, scope)
    ensures DroppingSteps(run, steps, n, scope) > 0 <==> SomeDrops(run, steps, n, scope)
  {
    if n > 0 {
      CountsTell(run, steps, n - 1, scope);
      if m :| 0 <= m < n && Unbacked(run[m], steps[m], scope) {
        assert m == n - 1 || SomeUnbacked(run, steps, n - 1, scope);
      }
      if m :| 0 <= m < n && Drops(run[m], steps[m], scope) {
        assert m == n - 1 || SomeDrops(run, steps, n - 1, scope);
      }
    }
  }

  /** What the gate is for: no more approvals succeed than were recorded, and what waits is still to come. */
  ghost predicate Consumed(s: State, scope: Scope)
    requires s.versions != []
  {
    CountSuccesses(s.log, scope) + One(Waits(Current(s), scope)) <= CountRecordings(s.log, scope)
  }

  /**
   In every run and prefix, approvals are consumed if each stored reset finds its revision waiting and no write-back
   makes one wait again. While nothing is dropped, only then.
   */
  lemma ConsumedUnlessUnbacked(p: Pipeline, run: seq<State>, steps: seq<Step>, n: nat, scope: Scope)
    requires IsRun(p, run, steps) && n <= |steps|
    ensures run[n].versions != []
    ensures !SomeUnbacked(run, steps, n, scope) ==> Consumed(run[n], scope)
    ensures !SomeDrops(run, steps, n, scope) ==> (Consumed(run[n], scope) <==> !SomeUnbacked(run, steps, n, scope))
    ensures Consumed(run[n], scope) <==> UnbackedSteps(run, steps, n, scope) <= DroppingSteps(run, steps, n, scope)
  {
    EveryRunBalances(p, run, steps, n, scope);
    CountsTell(run, steps, n, scope);
  }

  // == Requests that exclude one another ==

  predicate IsApproval(c: Call) {
    c.Approving? || c.Approved? || c.Resetter?
  }

  predicate Stores(s: State, step: Step) {
    Records(s, step) || Resets(s, step) || Patches(s, step)
  }

  /** Approvals start from the latest status, and nothing else is stored while one is served. */
  ghost predicate Exclusive(s: State, step: Step) {
    && (step.StartApproval? ==> step.version == |s.versions| - 1)
    && (Stores(s, step) ==> forall w :: w in s.calls && IsApproval(s.calls[w]) ==> w == step.w)
  }

  /** What each approval is about to consume still waits. */
  ghost predicate ApprovalsFresh(s: State) {
    && s.versions != []
    && forall w :: w in s.calls && IsApproval(s.calls[w]) ==>
         s.calls[w].revision != ""
         && GetWaitingApproval(Current(s).environments, s.calls[w].env.name) == s.calls[w].revision
  }

  lemma StepKeepsFresh(p: Pipeline, s: State, step: Step)
    requires ApprovalsFresh(s) && Enabled(p, s, step) && Exclusive(s, step)
    ensures ApprovalsFresh(Apply(p, s, step))
  {
    var s' := Apply(p, s, step);
    if !Stores(s, step) {
      assert Current(s') == Current(s);
    }
  }

  lemma {:induction false} ExclusiveRunStaysFresh(p: Pipeline, run: seq<State>, steps: seq<Step>, n: nat)
    requires IsRun(p, run, steps) && n <= |steps|
    requires forall m | 0 <= m < n :: Exclusive(run[m], steps[m])
    ensures ApprovalsFresh(run[n])
  {
    if n > 0 {
      ExclusiveRunStaysFresh(p, run, steps, n - 1);
      assert StepAt(p, run, steps, n - 1);
      StepKeepsFresh(p, run[n - 1], steps[n - 1]);
    }
  }

  /** Approvals that exclude every other write and read the latest status are consumed, if no write-back restores. */
  lemma ExclusiveApprovalsAreConsumed(p: Pipeline, run: seq<State>, steps: seq<Step>, n: nat, scope: Scope)
    requires IsRun(p, run, steps) && n <= |steps|
    requires forall m | 0 <= m < n :: Exclusive(run[m], steps[m]) && !Restores(run[m], steps[m], scope)
    ensures run[n].versions != [] && Consumed(run[n], scope)
  {
    forall m | 0 <= m < n
      ensures !Unbacked(run[m], steps[m], scope)
    {
      ExclusiveRunStaysFresh(p, run, steps, m);
    }
    ConsumedUnlessUnbacked(p, run, steps, n, scope);
  }
}
