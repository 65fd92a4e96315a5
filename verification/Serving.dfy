/**
 What the answers of the two webhooks mean, and that requests served one by one are runs of the gate: what is proved of
 every interleaving holds of them, with the same log.
 */
module Serving {
  import opened Options
  import opened Api
  import opened Keys
  import opened Reconciler
  import opened Handlers
  import opened Gate
  import opened Consumption
  import opened DoubleApprovals

  // == Which events are accepted ==

  /** The object involved is an application the reconciler reads for a target of the environment. */
  predicate IsApplicationOf(p: Pipeline, k: int, ref: ObjectRef)
    requires 0 <= k < |p.environments|
  {
    && ref.apiVersion == p.appRef.apiVersion && ref.kind == p.appRef.kind
    && exists t | t in p.environments[k].targets :: ReadKey(p, t) == ObjectKey(ref.ns, ref.name)
  }

  /** With unique names: the event is from environment `k`, for one of its applications, and there is a next one. */
  lemma AcceptedIffApplication(p: Pipeline, k: int, ref: ObjectRef)
    requires UniqueNames(p.environments) && 0 <= k < |p.environments|
    ensures LookupNext(p, p.environments[k].name, ref)
         == if k + 1 < |p.environments| && p.environments[k + 1].targets != [] && IsApplicationOf(p, k, ref)
            then Some(p.environments[k + 1]) else None
  {
    var j := IndexOf(p.environments, p.environments[k].name);
    assert j == k;
    if IsApplicationOf(p, k, ref) {
      var t :| t in p.environments[k].targets && ReadKey(p, t) == ObjectKey(ref.ns, ref.name);
      assert t.ns == ref.ns;
    }
    if t :| t in p.environments[k].targets && t.ns == ref.ns {
      assert p.appRef.name == ref.name ==> ReadKey(p, t) == ObjectKey(ref.ns, ref.name);
    }
  }

  lemma UnknownIsRefused(p: Pipeline, from: string, ref: ObjectRef)
    requires forall env | env in p.environments :: env.name != from
    ensures LookupNext(p, from, ref).None?
  {
  }

  // == What the answers mean ==

  /** The request is for this environment and can be carried out: its promotion is configured. */
  predicate Asked(p: Pipeline, from: string, event: Event, env: Environment) {
    && event.revision != "" && LookupNext(p, from, event.involved) == Some(env)
    && GetPromotion(p, env.name).Some?
  }

  /**
   A promotion request for a manual environment leaves the revision waiting and calls no strategy; any other one leaves
   the status as it was, and succeeds exactly when the strategy does.
   */
  lemma PromotionIsGated(p: Pipeline, s: PipelineStatus, from: string, event: Event, calls: Calls, env: Environment)
    requires Asked(p, from, event, env)
    ensures var served := ServedPromotion(p, s, from, event, calls);
      if Manual(p, env) then
        if calls.reread && calls.update then
          && served.response == NoContent
          && GetWaitingApproval(served.status.environments, env.name) == event.revision
          && (forall other | other != env.name ::
                GetWaitingApproval(served.status.environments, other) == GetWaitingApproval(s.environments, other))
          && served.recorded == Some((env.name, event.revision))
        else served.status == s && served.response == InternalError && served.recorded.None?
      else
        served.status == s && served.recorded.None? && (Success(served.response) <==> calls.promoted.Some?)
  {
  }

  /** Requests that cannot be carried out change nothing, and say whose fault it is. */
  lemma RefusedPromotion(p: Pipeline, s: PipelineStatus, from: string, event: Event, calls: Calls)
    requires forall env :: !Asked(p, from, event, env)
    ensures var served := ServedPromotion(p, s, from, event, calls);
      && served.status == s && served.recorded.None?
      && served.response == if event.revision == "" || LookupNext(p, from, event.involved).None? then Unprocessable
                            else InternalError
  {
    if event.revision != "" && LookupNext(p, from, event.involved).Some? {
      assert !Asked(p, from, event, LookupNext(p, from, event.involved).value);
    }
  }

  /** Exactly when an approval succeeds; a request that does not succeed leaves the status as it was. */
  lemma ApprovalSucceedsIff(p: Pipeline, s: PipelineStatus, env: string, revision: string, calls: Calls)
    ensures var served := ServedApproval(p, s, env, revision, calls);
      && (Success(served.response) <==>
            && GetWaitingApproval(s.environments, env) == revision
            && (exists e | e in p.environments :: e.name == env)
            && GetPromotion(p, env).Some? && calls.promoted.Some? && calls.reread && calls.update)
      && (!Success(served.response) ==> served.status == s)
      && (Success(served.response) ==> forall other ::
            GetWaitingApproval(served.status.environments, other)
              == if other == env then "" else GetWaitingApproval(s.environments, other))
      && (served.response == Unprocessable <==>
            GetWaitingApproval(s.environments, env) != revision || forall e | e in p.environments :: e.name != env)
  {
    var k := IndexOf(p.environments, env);
    if k < |p.environments| {
      assert p.environments[k] in p.environments && p.environments[k].name == env;
    }
  }

  /** A success says Created exactly when the strategy names a location. */
  lemma CreatedIffLocated(p: Pipeline, s: PipelineStatus, r: Request)
    requires Success(Serve(p, s, r).response)
    ensures Serve(p, s, r).response == Created
      <==> Serve(p, s, r).recorded.None? && r.calls.promoted.Some? && r.calls.promoted.value != ""
  {
  }

  // == Requests as runs of the gate ==

  /** The strategy is called for the request. */
  predicate CallsStrategy(p: Pipeline, s: PipelineStatus, r: Request) {
    match r
    case PromotionRequest(from, event, _) =>
      && event.revision != "" && LookupNext(p, from, event.involved).Some?
      && GetPromotion(p, LookupNext(p, from, event.involved).value.name).Some?
      && !Manual(p, LookupNext(p, from, event.involved).value)
    case ApprovalRequest(env, revision, _) =>
      && GetWaitingApproval(s.environments, env) == revision
      && LookupEnvironment(p, env).Some? && GetPromotion(p, env).Some?
  }

  /** What a request adds to the log of the gate, by its answer. */
  function EntriesOf(p: Pipeline, s: PipelineStatus, r: Request): seq<Entry> {
    match r
    case PromotionRequest(from, event, _) =>
      if CallsStrategy(p, s, r) then
        [PromotedAutomatically(LookupNext(p, from, event.involved).value, event.revision)]
      else if Success(Serve(p, s, r).response) && LookupNext(p, from, event.involved).Some? then
        [Recorded(LookupNext(p, from, event.involved).value, from, event)]
      else []
    case ApprovalRequest(env, revision, _) =>
      if CallsStrategy(p, s, r) then
        var e := LookupEnvironment(p, env).value;
        [PromotedByApproval(e, revision)] + if Success(Serve(p, s, r).response) then [Succeeded(e, revision)] else []
      else []
  }

  /** A run of the gate in which nothing is being served, and this status is current. */
  ghost predicate Rests(p: Pipeline, run: seq<State>, steps: seq<Step>, s: PipelineStatus, log: seq<Entry>) {
    && IsRun(p, run, steps) && run != [] && Last(run).calls == map[] && Last(run).log == log
    && Last(run).versions != [] && Current(Last(run)) == s
  }

  lemma AutomaticIsAPath(
      p: Pipeline, run: seq<State>, steps: seq<Step>, s: PipelineStatus, log: seq<Entry>,
      env: Environment, from: string, event: Event)
    returns (run': seq<State>, steps': seq<Step>)
    requires Rests(p, run, steps, s, log) && Asked(p, from, event, env) && !Manual(p, env)
    ensures Rests(p, run', steps', s, log + [PromotedAutomatically(env, event.revision)])
  {
    assert run != [];
    hide IsRun, NothingRestored, NothingStale, OneAtATime, StaleReset, Restores, AtMostOneCall;
    run', steps' := Take(p, run, steps, StartPromotion(0, from, event));
    assert Last(run') == SetCall(Last(run), 0, Promoting(env, event.revision));
    run', steps' := Take(p, run', steps', AttemptPromotion(0, false));
    assert Last(run').calls == map[];
  }

  lemma RecordingIsAPath(
      p: Pipeline, run: seq<State>, steps: seq<Step>, s: PipelineStatus, log: seq<Entry>,
      env: Environment, from: string, event: Event)
    returns (run': seq<State>, steps': seq<Step>)
    requires Rests(p, run, steps, s, log) && AsksManual(p, env, from, event)
    ensures Rests(p, run', steps', Store(s, env.name, event.revision), log + [Recorded(env, from, event)])
  {
    hide IsRun, NothingRestored, NothingStale, OneAtATime, AsksManual, Store;
    run', steps' := Record(p, run, steps, 0, env, from, event);
  }

  /** An approval that is answered with a success, or fails after its strategy was called. */
  lemma ApprovalIsAPath(
      p: Pipeline, run: seq<State>, steps: seq<Step>, s: PipelineStatus, log: seq<Entry>,
      env: Environment, revision: string, ok: bool)
    returns (run': seq<State>, steps': seq<Step>)
    requires Rests(p, run, steps, s, log) && LookupEnvironment(p, env.name) == Some(env)
    requires GetPromotion(p, env.name).Some? && revision != ""
    requires GetWaitingApproval(s.environments, env.name) == revision
    ensures if ok then Rests(p, run', steps', Store(s, env.name, ""),
                             log + [PromotedByApproval(env, revision)] + [Succeeded(env, revision)])
            else Rests(p, run', steps', s, log + [PromotedByApproval(env, revision)])
  {
    assert run != [];
    hide IsRun, NothingRestored, NothingStale, OneAtATime, StaleReset, Restores, AtMostOneCall;
    run', steps' := DoubleApprovals.Promote(p, run, steps, 0, env, revision, |Last(run).versions| - 1);
    if ok {
      run', steps' := Finish(p, run', steps', 0);
    } else {
      run', steps' := Take(p, run', steps', Fail(0));
    }
    assert Last(run').calls == map[];
  }

  /** Serving a request, of either kind and with any outcome, takes the gate along one of its paths. */
  lemma ServingIsAPath(
      p: Pipeline, run: seq<State>, steps: seq<Step>, s: PipelineStatus, log: seq<Entry>, r: Request)
    returns (run': seq<State>, steps': seq<Step>)
    requires Rests(p, run, steps, s, log) && ValidRequest(r)
    ensures Rests(p, run', steps', Serve(p, s, r).status, log + EntriesOf(p, s, r))
  {
    run', steps' := run, steps;
    assert log + [] == log;
    match r
    case PromotionRequest(from, event, calls) =>
      if CallsStrategy(p, s, r) {
        run', steps' := AutomaticIsAPath(p, run, steps, s, log, LookupNext(p, from, event.involved).value, from, event);
      } else if Success(Serve(p, s, r).response) {
        run', steps' := RecordingIsAPath(p, run, steps, s, log, LookupNext(p, from, event.involved).value, from, event);
      }
    case ApprovalRequest(env, revision, calls) =>
      if CallsStrategy(p, s, r) {
        var ok, e := Success(Serve(p, s, r).response), LookupEnvironment(p, env).value;
        run', steps' := ApprovalIsAPath(p, run, steps, s, log, e, revision, ok);
        assert log + [PromotedByApproval(e, revision)] + [Succeeded(e, revision)]
            == log + ([PromotedByApproval(e, revision)] + [Succeeded(e, revision)]);
      }
  }

  /** The log of the gate counts what the answers say. */
  lemma EntriesCount(p: Pipeline, s: PipelineStatus, log: seq<Entry>, r: Request, env: string)
    requires ValidRequest(r)
    ensures var served, all, scope := Serve(p, s, r), log + EntriesOf(p, s, r), Scope(env, None);
      && CountRecordings(all, scope)
           == CountRecordings(log, scope) + One(served.recorded.Some? && served.recorded.value.0 == env)
      && CountSuccesses(all, scope)
           == CountSuccesses(log, scope) + One(Approves(r, env) && Success(served.response))
  {
    var entries, scope := EntriesOf(p, s, r), Scope(env, None);
    if |entries| == 1 {
      LoggingCounts(log, entries[0], scope);
      assert log + entries == log + [entries[0]];
    } else if |entries| == 2 {
      LoggingCounts(log, entries[0], scope);
      LoggingCounts(log + [entries[0]], entries[1], scope);
      assert log + entries == log + [entries[0]] + [entries[1]];
    } else {
      assert log + entries == log;
    }
  }

  /** The gate has served these requests: its log counts the recordings and the successful approvals among them. */
  ghost predicate HasServed(p: Pipeline, run: seq<State>, steps: seq<Step>, s: PipelineStatus, rs: seq<Request>) {
    && run != [] && Rests(p, run, steps, After(p, s, rs), Last(run).log)
    && forall env ::
         && CountRecordings(Last(run).log, Scope(env, None)) == Recordings(p, s, rs, env)
         && CountSuccesses(Last(run).log, Scope(env, None)) == Approvals(p, s, rs, env)
  }

  /** Any sequence of requests, served one by one, is a run of the gate that ends in the same status. */
  lemma {:induction false} SerialRunIsAGateRun(p: Pipeline, s: PipelineStatus, rs: seq<Request>)
    returns (run: seq<State>, steps: seq<Step>)
    requires forall env :: GetWaitingApproval(s.environments, env) == ""
    requires forall r | r in rs :: ValidRequest(r)
    ensures HasServed(p, run, steps, s, rs)
  {
    if rs == [] {
      run, steps := Begin(p, s);
    } else {
      var n := |rs| - 1;
      run, steps := SerialRunIsAGateRun(p, s, rs[..n]);
      var before, log := After(p, s, rs[..n]), Last(run).log;
      run, steps := ServingIsAPath(p, run, steps, before, log, rs[n]);
      forall env
        ensures CountRecordings(Last(run).log, Scope(env, None)) == Recordings(p, s, rs, env)
        ensures CountSuccesses(Last(run).log, Scope(env, None)) == Approvals(p, s, rs, env)
      {
        EntriesCount(p, before, log, rs[n], env);
      }
    }
  }
}
