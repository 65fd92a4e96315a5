/** One recording can be approved twice: a run for each way, with any pipeline, event and initial status. */
module DoubleApprovals {
  import opened Options
  import opened Api
  import opened Handlers
  import opened StatusCodec
  import opened Gate
  import opened Consumption

  /** An event that asks for a revision in a manual environment of the pipeline. */
  predicate AsksManual(p: Pipeline, env: Environment, from: string, event: Event) {
    event.revision != "" && LookupNext(p, from, event.involved) == Some(env) && Manual(p, env)
  }

  /** And one that can be found by its name. */
  predicate Asks(p: Pipeline, env: Environment, from: string, event: Event) {
    AsksManual(p, env, from, event) && LookupEnvironment(p, env.name) == Some(env)
  }

  function Last(run: seq<State>): State
    requires run != []
  {
    run[|run| - 1]
  }

  ghost predicate AtMostOneCall(s: State) {
    forall w, w' | w in s.calls && w' in s.calls :: w == w'
  }

  lemma FewCalls(s: State, w: nat)
    requires s.calls.Keys <= {w}
    ensures AtMostOneCall(s)
  {
  }

  ghost predicate OneAtATime(run: seq<State>) {
    forall n :: 0 <= n < |run| ==> AtMostOneCall(run[n])
  }

  ghost predicate NothingRestored(run: seq<State>, steps: seq<Step>) {
    |run| == |steps| + 1 && forall m, scope | 0 <= m < |steps| :: !Restores(run[m], steps[m], scope)
  }

  ghost predicate NothingStale(run: seq<State>, steps: seq<Step>) {
    |run| == |steps| + 1 && forall m, scope | 0 <= m < |steps| :: !StaleReset(run[m], steps[m], scope)
  }

  predicate StillWaits(s: State, env: Environment, revision: string)
    requires s.versions != []
  {
    GetWaitingApproval(Current(s).environments, env.name) == revision
  }

  /** The call is about to reset the revision it promoted. */
  predicate ConsumesAt(s: State, w: nat) {
    && s.versions != [] && w in s.calls && s.calls[w].Resetter?
    && StillWaits(s, s.calls[w].env, s.calls[w].revision)
  }

  // == Runs, piece by piece ==

  lemma Take(p: Pipeline, run: seq<State>, steps: seq<Step>, step: Step) returns (run': seq<State>, steps': seq<Step>)
    requires IsRun(p, run, steps) && Enabled(p, Last(run), step)
    ensures IsRun(p, run', steps') && run' != [] && Last(run') == Apply(p, Last(run), step)
    ensures !step.Patch? && NothingRestored(run, steps) ==> NothingRestored(run', steps')
    ensures NothingStale(run, steps) && (step.UpdateToReset? ==> ConsumesAt(Last(run), step.w))
      ==> NothingStale(run', steps')
    ensures OneAtATime(run) && AtMostOneCall(Last(run')) ==> OneAtATime(run')
  {
    run', steps' := run + [Apply(p, Last(run), step)], steps + [step];
    forall n | 0 <= n < |steps'|
      ensures StepAt(p, run', steps', n)
    {
      hide Enabled, Apply;
      assert n < |steps| ==> StepAt(p, run, steps, n);
    }
  }

  ghost predicate Takes(p: Pipeline, s: State, step: Step, s': State) {
    Enabled(p, s, step) && Apply(p, s, step) == s'
  }

  lemma RecordTakes(p: Pipeline, s: State, w: nat, env: Environment, from: string, event: Event, version: nat)
    requires AsksManual(p, env, from, event) && s.calls == map[] && |s.versions| == version + 1
    ensures Takes(p, s, StartPromotion(w, from, event), s.(calls := map[w := Recording(env, from, event)]))
    ensures Takes(p, s.(calls := map[w := Recording(env, from, event)]), ReadToRecord(w, version),
                  s.(calls := map[w := Recorder(env, from, event, version)]))
    ensures Takes(p, s.(calls := map[w := Recorder(env, from, event, version)]), UpdateToRecord(w),
                  State(s.versions + [Store(Current(s), env.name, event.revision)], map[],
                        s.log + [Recorded(env, from, event)]))
  {
  }

  lemma Record(
      p: Pipeline, run: seq<State>, steps: seq<Step>, w: nat, env: Environment, from: string, event: Event)
    returns (run': seq<State>, steps': seq<Step>)
    requires IsRun(p, run, steps) && AsksManual(p, env, from, event)
    requires Last(run).versions != [] && Last(run).calls == map[]
    ensures IsRun(p, run', steps') && run' != []
    ensures var s := Last(run);
      Last(run') == State(
        s.versions + [Store(Current(s), env.name, event.revision)], s.calls, s.log + [Recorded(env, from, event)])
    ensures NothingRestored(run, steps) ==> NothingRestored(run', steps')
    ensures NothingStale(run, steps) ==> NothingStale(run', steps')
    ensures OneAtATime(run) ==> OneAtATime(run')
  {
    assert run != [];
    hide NothingRestored, NothingStale, StaleReset, Restores, OneAtATime, IsRun, AtMostOneCall;
    hide Enabled, Apply, AsksManual;
    RecordTakes(p, Last(run), w, env, from, event, |Last(run).versions| - 1);
    run', steps' := Take(p, run, steps, StartPromotion(w, from, event));
    FewCalls(Last(run'), w);
    run', steps' := Take(p, run', steps', ReadToRecord(w, |Last(run).versions| - 1));
    FewCalls(Last(run'), w);
    run', steps' := Take(p, run', steps', UpdateToRecord(w));
    FewCalls(Last(run'), w);
  }

  /** The end of an approval that has been promoted: it resets the latest version and answers with a success. */
  lemma Finish(p: Pipeline, run: seq<State>, steps: seq<Step>, w: nat) returns (run': seq<State>, steps': seq<Step>)
    requires IsRun(p, run, steps) && Last(run).versions != []
    requires w in Last(run).calls && Last(run).calls[w].Approved?
    ensures IsRun(p, run', steps') && run' != []
    ensures var s, c := Last(run), Last(run).calls[w];
      Last(run') == State(
        s.versions + [Store(Current(s), c.env.name, "")], s.calls - {w}, s.log + [Succeeded(c.env, c.revision)])
    ensures NothingRestored(run, steps) ==> NothingRestored(run', steps')
    ensures NothingStale(run, steps) && StillWaits(Last(run), Last(run).calls[w].env, Last(run).calls[w].revision)
      ==> NothingStale(run', steps')
    ensures OneAtATime(run) ==> OneAtATime(run')
  {
    assert run != [];
    hide NothingRestored, NothingStale, StaleReset, Restores, IsRun;
    var c, version := Last(run).calls[w], |Last(run).versions| - 1;
    run', steps' := Take(p, run, steps, ReadToReset(w, version));
    assert Last(run') == SetCall(Last(run), w, Resetter(c.env, c.revision, version));
    assert OneAtATime(run) ==> AtMostOneCall(Last(run)) && AtMostOneCall(Last(run'));
    run', steps' := Take(p, run', steps', UpdateToReset(w));
    assert Last(run').calls == Last(run).calls - {w};
  }

  /** The start of an approval that finds the revision waiting in the version it reads, up to its promotion. */
  lemma Promote(
      p: Pipeline, run: seq<State>, steps: seq<Step>, w: nat, env: Environment, revision: string, version: nat)
    returns (run': seq<State>, steps': seq<Step>)
    requires IsRun(p, run, steps) && w !in Last(run).calls && version < |Last(run).versions|
    requires LookupEnvironment(p, env.name) == Some(env) && GetPromotion(p, env.name).Some? && revision != ""
    requires GetWaitingApproval(Last(run).versions[version].environments, env.name) == revision
    ensures IsRun(p, run', steps') && run' != []
    ensures var s := Last(run);
      Last(run') == s.(
        calls := s.calls[w := Approved(env, revision)], log := s.log + [PromotedByApproval(env, revision)])
    ensures NothingRestored(run, steps) ==> NothingRestored(run', steps')
    ensures NothingStale(run, steps) ==> NothingStale(run', steps')
    ensures OneAtATime(run) && Last(run).calls == map[] ==> OneAtATime(run')
  {
    assert run != [];
    hide NothingRestored, NothingStale, StaleReset, Restores, OneAtATime, IsRun, AtMostOneCall;
    run', steps' := Take(p, run, steps, StartApproval(w, env.name, revision, version));
    assert Last(run') == SetCall(Last(run), w, Approving(env, revision));
    if Last(run).calls == map[] {
      FewCalls(Last(run'), w);
    }
    run', steps' := Take(p, run', steps', PromoteApproved(w, true));
    if Last(run).calls == map[] {
      FewCalls(Last(run'), w);
    }
  }

  /** An approval, served as a whole, that finds the revision waiting in the version it reads. */
  lemma Approve(
      p: Pipeline, run: seq<State>, steps: seq<Step>, w: nat, env: Environment, revision: string, version: nat)
    returns (run': seq<State>, steps': seq<Step>)
    requires IsRun(p, run, steps) && w !in Last(run).calls && version < |Last(run).versions|
    requires LookupEnvironment(p, env.name) == Some(env) && GetPromotion(p, env.name).Some? && revision != ""
    requires GetWaitingApproval(Last(run).versions[version].environments, env.name) == revision
    ensures IsRun(p, run', steps') && run' != []
    ensures var s := Last(run);
      Last(run') == State(
        s.versions + [Store(Current(s), env.name, "")], s.calls,
        s.log + [PromotedByApproval(env, revision)] + [Succeeded(env, revision)])
    ensures NothingRestored(run, steps) ==> NothingRestored(run', steps')
    ensures NothingStale(run, steps) && StillWaits(Last(run), env, revision)
      ==> NothingStale(run', steps')
    ensures OneAtATime(run) && Last(run).calls == map[] ==> OneAtATime(run')
  {
    assert run != [];
    hide NothingRestored, NothingStale, StaleReset, Restores, OneAtATime, IsRun, Enabled, Apply;
    run', steps' := Promote(p, run, steps, w, env, revision, version);
    run', steps' := Finish(p, run', steps', w);
    assert Last(run').calls == Last(run).calls;
  }

  lemma Begin(p: Pipeline, s0: PipelineStatus) returns (run: seq<State>, steps: seq<Step>)
    requires forall name :: GetWaitingApproval(s0.environments, name) == ""
    ensures IsRun(p, run, steps) && run != [] && Last(run) == State([s0], map[], [])
    ensures NothingRestored(run, steps) && NothingStale(run, steps) && OneAtATime(run)
  {
    run, steps := [State([s0], map[], [])], [];
  }

  // == The three ways ==

  /** The run ends with one recording and two successful approvals of it. */
  ghost predicate ApprovedTwice(
      p: Pipeline, run: seq<State>, steps: seq<Step>, env: Environment, from: string, event: Event)
  {
    && IsRun(p, run, steps) && Last(run).versions != []
    && CountRecordings(Last(run).log, Scope(env.name, None)) == 1
    && CountSuccesses(Last(run).log, Scope(env.name, Some(event.revision))) == 2
    && !Consumed(Last(run), Scope(env.name, None))
  }

  /** One recording and two promotions, both answered with a success. */
  function OverlapLog(env: Environment, from: string, event: Event): seq<Entry> {
    [Recorded(env, from, event)] + [PromotedByApproval(env, event.revision)] + [PromotedByApproval(env, event.revision)]
    + [Succeeded(env, event.revision)] + [Succeeded(env, event.revision)]
  }

  function SerialLog(env: Environment, from: string, event: Event): seq<Entry> {
    [Recorded(env, from, event)] + [PromotedByApproval(env, event.revision)] + [Succeeded(env, event.revision)]
    + [PromotedByApproval(env, event.revision)] + [Succeeded(env, event.revision)]
  }

  predicate OneForTwo(log: seq<Entry>, scope: Scope) {
    CountRecordings(log, scope) == 1 && CountSuccesses(log, scope) == 2
  }

  lemma OverlapCounts(env: Environment, from: string, event: Event, scope: Scope)
    requires scope.Has(env.name, event.revision)
    ensures OneForTwo(OverlapLog(env, from, event), scope)
  {
    var first, promoted := Recorded(env, from, event), PromotedByApproval(env, event.revision);
    var done := Succeeded(env, event.revision);
    LoggingNothing(scope);
    hide CountRecordings, CountSuccesses;
    assert [] + [first] == [first];
    LoggingCounts([], first, scope);
    LoggingCounts([first], promoted, scope);
    LoggingCounts([first] + [promoted], promoted, scope);
    LoggingCounts([first] + [promoted] + [promoted], done, scope);
    LoggingCounts([first] + [promoted] + [promoted] + [done], done, scope);
  }

  lemma SerialCounts(env: Environment, from: string, event: Event, scope: Scope)
    requires scope.Has(env.name, event.revision)
    ensures OneForTwo(SerialLog(env, from, event), scope)
  {
    var first, promoted := Recorded(env, from, event), PromotedByApproval(env, event.revision);
    var done := Succeeded(env, event.revision);
    LoggingNothing(scope);
    hide CountRecordings, CountSuccesses;
    assert [] + [first] == [first];
    LoggingCounts([], first, scope);
    LoggingCounts([first], promoted, scope);
    LoggingCounts([first] + [promoted], done, scope);
    LoggingCounts([first] + [promoted] + [done], promoted, scope);
    LoggingCounts([first] + [promoted] + [done] + [promoted], done, scope);
  }

  lemma LoggingNothing(scope: Scope)
    ensures CountRecordings([], scope) == 0 == CountSuccesses([], scope)
  {
  }

  lemma TwoSuccesses(
      p: Pipeline, run: seq<State>, steps: seq<Step>, env: Environment, from: string, event: Event)
    requires IsRun(p, run, steps) && run != [] && Last(run).versions != []
    requires OneForTwo(Last(run).log, Scope(env.name, None))
    requires OneForTwo(Last(run).log, Scope(env.name, Some(event.revision)))
    ensures ApprovedTwice(p, run, steps, env, from, event)
  {
    hide IsRun, CountRecordings, CountSuccesses, Waits;
  }

  /** Two approvals overlap: both read the revision before either has reset it. */
  lemma OverlappingApprovalsBothSucceed(
      p: Pipeline, s0: PipelineStatus, env: Environment, from: string, event: Event)
    requires Asks(p, env, from, event)
    requires forall name :: GetWaitingApproval(s0.environments, name) == ""
    ensures exists run, steps :: ApprovedTwice(p, run, steps, env, from, event) && NothingRestored(run, steps)
  {
    hide NothingRestored, NothingStale, StaleReset, Restores, OneAtATime, IsRun, Enabled, Apply, ApprovedTwice;
    var run, steps := Begin(p, s0);
    run, steps := Record(p, run, steps, 0, env, from, event);
    run, steps := Promote(p, run, steps, 1, env, event.revision, 1);
    run, steps := Promote(p, run, steps, 2, env, event.revision, 1);
    run, steps := Finish(p, run, steps, 1);
    run, steps := Finish(p, run, steps, 2);
    OverlapCounts(env, from, event, Scope(env.name, None));
    OverlapCounts(env, from, event, Scope(env.name, Some(event.revision)));
    assert Last(run).log == OverlapLog(env, from, event);
    TwoSuccesses(p, run, steps, env, from, event);
  }

  /** Approvals are served one by one, but the second reads a version from before the first one's reset. */
  lemma StaleReadApprovesTwice(p: Pipeline, s0: PipelineStatus, env: Environment, from: string, event: Event)
    requires Asks(p, env, from, event)
    requires forall name :: GetWaitingApproval(s0.environments, name) == ""
    ensures exists run, steps ::
      ApprovedTwice(p, run, steps, env, from, event) && NothingRestored(run, steps) && OneAtATime(run)
  {
    hide NothingRestored, NothingStale, StaleReset, Restores, OneAtATime, IsRun, Enabled, Apply, ApprovedTwice;
    var run, steps := Begin(p, s0);
    run, steps := Record(p, run, steps, 0, env, from, event);
    run, steps := Approve(p, run, steps, 1, env, event.revision, 1);
    run, steps := Approve(p, run, steps, 2, env, event.revision, 1);
    SerialCounts(env, from, event, Scope(env.name, None));
    SerialCounts(env, from, event, Scope(env.name, Some(event.revision)));
    assert Last(run).log == SerialLog(env, from, event);
    TwoSuccesses(p, run, steps, env, from, event);
  }

  /** A revision is recorded, and a reconciler reads the status with it. */
  lemma ReadsRecorded(
      p: Pipeline, s0: PipelineStatus, env: Environment, from: string, event: Event, next: PipelineStatus)
    returns (run: seq<State>, steps: seq<Step>)
    requires Asks(p, env, from, event)
    requires forall name :: GetWaitingApproval(s0.environments, name) == ""
    requires next.environments == Store(s0, env.name, event.revision).environments
    ensures IsRun(p, run, steps) && run != [] && NothingStale(run, steps)
    ensures Last(run) == State(
      [s0, Store(s0, env.name, event.revision)], map[3 := WritingBack(next)], [Recorded(env, from, event)])
  {
    hide NothingRestored, NothingStale, StaleReset, Restores, OneAtATime, IsRun;
    run, steps := Begin(p, s0);
    run, steps := Record(p, run, steps, 0, env, from, event);
    run, steps := Take(p, run, steps, Reconcile(3, 1, next));
  }

  /** What it writes back after the approval makes the consumed revision wait again. */
  lemma WaitsAgain(
      p: Pipeline, s0: PipelineStatus, env: Environment, from: string, event: Event, next: PipelineStatus)
    returns (run: seq<State>, steps: seq<Step>)
    requires Asks(p, env, from, event)
    requires forall name :: GetWaitingApproval(s0.environments, name) == ""
    requires next.environments == Store(s0, env.name, event.revision).environments
    ensures IsRun(p, run, steps) && run != [] && NothingStale(run, steps)
    ensures Last(run).calls == map[] && |Last(run).versions| == 4 && Last(run).versions[3] == next
    ensures Last(run).log
         == [Recorded(env, from, event)] + [PromotedByApproval(env, event.revision)] + [Succeeded(env, event.revision)]
  {
    hide NothingRestored, NothingStale, StaleReset, Restores, OneAtATime, IsRun;
    run, steps := ReadsRecorded(p, s0, env, from, event, next);
    run, steps := Approve(p, run, steps, 1, env, event.revision, 1);
    run, steps := Take(p, run, steps, ReadToPatch(3, 2));
    PatchStoresNext(Current(Last(run)), next);
    run, steps := Take(p, run, steps, Patch(3));
  }

  /**
   Each approval reads the latest version and finds its revision, but a reconciler that read the status before the
   first one writes it back after: here with any new status that keeps what waits.
   */
  lemma WriteBackApprovesTwice(
      p: Pipeline, s0: PipelineStatus, env: Environment, from: string, event: Event, next: PipelineStatus)
    requires Asks(p, env, from, event)
    requires forall name :: GetWaitingApproval(s0.environments, name) == ""
    requires next.environments == Store(s0, env.name, event.revision).environments
    ensures exists run, steps :: ApprovedTwice(p, run, steps, env, from, event) && NothingStale(run, steps)
  {
    hide NothingRestored, NothingStale, StaleReset, Restores, OneAtATime, IsRun, Enabled, Apply, ApprovedTwice;
    var run, steps := WaitsAgain(p, s0, env, from, event, next);
    run, steps := Approve(p, run, steps, 2, env, event.revision, 3);
    SerialCounts(env, from, event, Scope(env.name, None));
    SerialCounts(env, from, event, Scope(env.name, Some(event.revision)));
    assert Last(run).log == SerialLog(env, from, event);
    TwoSuccesses(p, run, steps, env, from, event);
  }
}
