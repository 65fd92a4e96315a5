/** The promotion and approval webhooks, each request served on its own. */
module Handlers {
  import opened Options
  import opened Api

  datatype ObjectRef = ObjectRef(apiVersion: string, kind: string, name: string, ns: string)

  /** A notification about a deployed application: the revision in its metadata, and the object involved. */
  datatype Event = Event(revision: string, involved: ObjectRef)

  // == Lookups ==

  predicate Matches(p: Pipeline, source: Environment, ref: ObjectRef) {
    && p.appRef == AppRef(ref.apiVersion, ref.kind, ref.name)
    && exists t | t in source.targets :: t.ns == ref.ns
  }

  /** Environment `k` is the first of its name, and promotes to the one after it for this object. */
  predicate PromotesFrom(p: Pipeline, k: int, from: string, ref: ObjectRef) {
    && 0 <= k < |p.environments| - 1
    && p.environments[k].name == from
    && (forall j | 0 <= j < k :: p.environments[j].name != from)
    && p.environments[k + 1].targets != []
    && Matches(p, p.environments[k], ref)
  }

  /** The environment a promotion request asks to promote to; None when the request is refused. */
  function LookupNext(p: Pipeline, from: string, ref: ObjectRef): Option<Environment> {
    var k := IndexOf(p.environments, from);
    if PromotesFrom(p, k, from, ref) then Some(p.environments[k + 1]) else None
  }

  /** The index of the first environment of that name, or the number of environments. */
  function IndexOf(envs: seq<Environment>, name: string): (k: nat)
    ensures k <= |envs| && (k < |envs| ==> envs[k].name == name)
    ensures forall j | 0 <= j < k :: envs[j].name != name
  {
    if envs == [] || envs[0].name == name then 0
    else
      var k := IndexOf(envs[1..], name);
      assert forall j | 0 < j < k + 1 :: envs[j] == envs[1..][j - 1];
      k + 1
  }

  function LookupEnvironment(p: Pipeline, name: string): Option<Environment> {
    var k := IndexOf(p.environments, name);
    if k < |p.environments| then Some(p.environments[k]) else None
  }

  lemma LookupNextIsNext(p: Pipeline, from: string, ref: ObjectRef, env: Environment)
    ensures LookupNext(p, from, ref) == Some(env)
      <==> exists k :: PromotesFrom(p, k, from, ref) && env == p.environments[k + 1]
  {
    if k :| PromotesFrom(p, k, from, ref) {
      assert IndexOf(p.environments, from) == k;
    }
  }

  method LookupNextEnvironment(p: Pipeline, from: string, ref: ObjectRef) returns (r: Option<Environment>)
    ensures r == LookupNext(p, from, ref)
  {
    var source, next := None, None;
    for idx := 0 to |p.environments|
      invariant source == None && next == None
      invariant forall j | 0 <= j < idx :: p.environments[j].name != from
    {
      if p.environments[idx].name == from {
        if idx == |p.environments| - 1 {
          return None;
        }
        source, next := Some(p.environments[idx]), Some(p.environments[idx + 1]);
        assert IndexOf(p.environments, from) == idx;
        break;
      }
    }
    if next.None? || next.value.targets == [] {
      return None;
    }
    if p.appRef.apiVersion != ref.apiVersion || p.appRef.kind != ref.kind || p.appRef.name != ref.name {
      return None;
    }
    var found := NamespaceInTargets(source.value.targets, ref.ns);
    return if found then next else None;
  }

  method NamespaceInTargets(targets: seq<Target>, ns: string) returns (r: bool)
    ensures r <==> exists t | t in targets :: t.ns == ns
  {
    for i := 0 to |targets|
      invariant forall t | t in targets[..i] :: t.ns != ns
    {
      if targets[i].ns == ns {
        assert targets[i] in targets;
        return true;
      }
    }
    assert targets[..|targets|] == targets;
    return false;
  }

  // == Serving ==

  datatype Response = NoContent | Created | Unprocessable | InternalError

  predicate Success(r: Response) {
    r == NoContent || r == Created
  }

  /** What the calls out answer: the second read, the status update, and the strategy (with its location). */
  datatype Calls = Calls(reread: bool, update: bool, promoted: Option<string>)

  datatype Request =
    | PromotionRequest(from: string, event: Event, calls: Calls)
    | ApprovalRequest(env: string, revision: string, calls: Calls)

  /** The effects of one request: the stored status afterwards, the response, and the revision recorded, by name. */
  datatype Served = Served(status: PipelineStatus, response: Response, recorded: Option<(string, string)>)

  function Store(s: PipelineStatus, env: string, revision: string): PipelineStatus {
    s.(environments := SetWaitingApproval(s.environments, env, revision))
  }

  function Located(promoted: Option<string>): Response {
    match promoted
    case None => InternalError
    case Some(location) => if location != "" then Created else NoContent
  }

  function ServedPromotion(p: Pipeline, s: PipelineStatus, from: string, event: Event, calls: Calls): Served {
    if event.revision == "" then Served(s, Unprocessable, None)
    else
      match LookupNext(p, from, event.involved)
      case None => Served(s, Unprocessable, None)
      case Some(env) =>
        match GetPromotion(p, env.name)
        case None => Served(s, InternalError, None)
        case Some(promotion) =>
          if !promotion.manual then Served(s, Located(calls.promoted), None)
          else if !calls.reread || !calls.update then Served(s, InternalError, None)
          else Served(Store(s, env.name, event.revision), NoContent, Some((env.name, event.revision)))
  }

  function ServedApproval(p: Pipeline, s: PipelineStatus, env: string, revision: string, calls: Calls): Served {
    if GetWaitingApproval(s.environments, env) != revision then Served(s, Unprocessable, None)
    else
      match LookupEnvironment(p, env)
      case None => Served(s, Unprocessable, None)
      case Some(e) =>
        if GetPromotion(p, e.name).None? || calls.promoted.None? then Served(s, InternalError, None)
        else if !calls.reread || !calls.update then Served(s, InternalError, None)
        else Served(Store(s, env, ""), Located(calls.promoted), None)
  }

  function Serve(p: Pipeline, s: PipelineStatus, r: Request): Served {
    match r
    case PromotionRequest(from, event, calls) => ServedPromotion(p, s, from, event, calls)
    case ApprovalRequest(env, revision, calls) => ServedApproval(p, s, env, revision, calls)
  }

  /** The server and the stored status it works on. */
  class Server {
    const spec: Pipeline
    var status: PipelineStatus

    constructor (spec: Pipeline, status: PipelineStatus)
      ensures this.spec == spec && this.status == status
    {
      this.spec, this.status := spec, status;
    }

    method ServePromotion(from: string, event: Event, calls: Calls) returns (response: Response)
      modifies this
      ensures status == ServedPromotion(spec, old(status), from, event, calls).status
      ensures response == ServedPromotion(spec, old(status), from, event, calls).response
    {
      if event.revision == "" {
        return Unprocessable;
      }
      var env := LookupNextEnvironment(spec, from, event.involved);
      if env.None? {
        return Unprocessable;
      }
      var promotion := GetPromotion(spec, env.value.name);
      if promotion.None? {
        return InternalError;
      }
      if promotion.value.manual {
        if !calls.reread || !calls.update {
          return InternalError;
        }
        status := Store(status, env.value.name, event.revision);
        return NoContent;
      }
      if calls.promoted.None? {
        return InternalError;
      }
      return if calls.promoted.value != "" then Created else NoContent;
    }

    method ServeApproval(env: string, revision: string, calls: Calls) returns (response: Response)
      modifies this
      ensures status == ServedApproval(spec, old(status), env, revision, calls).status
      ensures response == ServedApproval(spec, old(status), env, revision, calls).response
    {
      if GetWaitingApproval(status.environments, env) != revision {
        return Unprocessable;
      }
      var e := LookupEnvironment(spec, env);
      if e.None? {
        return Unprocessable;
      }
      if GetPromotion(spec, e.value.name).None? || calls.promoted.None? || !calls.reread {
        return InternalError;
      }
      if !calls.update {
        return InternalError;
      }
      status := Store(status, env, "");
      return if calls.promoted.value != "" then Created else NoContent;
    }
  }

  // == Serial runs ==

  /** The status after the requests, one by one. */
  function After(p: Pipeline, s: PipelineStatus, rs: seq<Request>): PipelineStatus {
    if rs == [] then s
    else Serve(p, After(p, s, rs[..|rs| - 1]), rs[|rs| - 1]).status
  }

  /** How many requests recorded a revision for the environment. */
  function Recordings(p: Pipeline, s: PipelineStatus, rs: seq<Request>, env: string): nat {
    if rs == [] then 0
    else
      var served := Serve(p, After(p, s, rs[..|rs| - 1]), rs[|rs| - 1]);
      Recordings(p, s, rs[..|rs| - 1], env) + if served.recorded.Some? && served.recorded.value.0 == env then 1 else 0
  }

  /** How many approvals of the environment were answered with a success. */
  function Approvals(p: Pipeline, s: PipelineStatus, rs: seq<Request>, env: string): nat {
    if rs == [] then 0
    else
      var last := rs[|rs| - 1];
      var served := Serve(p, After(p, s, rs[..|rs| - 1]), last);
      Approvals(p, s, rs[..|rs| - 1], env) + if Approves(last, env) && Success(served.response) then 1 else 0
  }

  predicate Approves(r: Request, env: string) {
    r.ApprovalRequest? && r.env == env
  }

  function WaitingCount(s: PipelineStatus, env: string): nat {
    if GetWaitingApproval(s.environments, env) != "" then 1 else 0
  }

  /** Path segments of an approval request are not empty. */
  predicate ValidRequest(r: Request) {
    r.ApprovalRequest? ==> r.revision != ""
  }

  lemma SuccessfulApprovalConsumes(p: Pipeline, s: PipelineStatus, r: Request, env: string)
    requires ValidRequest(r) && Approves(r, env) && Success(Serve(p, s, r).response)
    ensures WaitingCount(s, env) == 1 && WaitingCount(Serve(p, s, r).status, env) == 0
  {
  }

  lemma ServingMovesWaiting(p: Pipeline, s: PipelineStatus, r: Request, env: string)
    requires ValidRequest(r)
    ensures var served := Serve(p, s, r);
      WaitingCount(served.status, env) + (if Approves(r, env) && Success(served.response) then 1 else 0)
        <= WaitingCount(s, env) + (if served.recorded.Some? && served.recorded.value.0 == env then 1 else 0)
  {
  }

  /** In every serial run, successful approvals plus what still waits never exceed the recordings. */
  lemma {:induction false} ApprovalsAreConsumed(p: Pipeline, s: PipelineStatus, rs: seq<Request>, env: string)
    requires forall r | r in rs :: ValidRequest(r)
    ensures Approvals(p, s, rs, env) + WaitingCount(After(p, s, rs), env)
         <= Recordings(p, s, rs, env) + WaitingCount(s, env)
  {
    if rs != [] {
      var n := |rs| - 1;
      ApprovalsAreConsumed(p, s, rs[..n], env);
      ServingMovesWaiting(p, After(p, s, rs[..n]), rs[n], env);
    }
  }

  /** How request `i` is served. */
  function ServedAt(p: Pipeline, s: PipelineStatus, rs: seq<Request>, i: nat): Served
    requires i < |rs|
  {
    Serve(p, After(p, s, rs[..i]), rs[i])
  }

  predicate SucceedsAt(p: Pipeline, s: PipelineStatus, rs: seq<Request>, i: nat, env: string)
    requires i < |rs|
  {
    Approves(rs[i], env) && Success(ServedAt(p, s, rs, i).response)
  }

  /** Request `i` recorded the revision; none of the next ones up to `n` recorded another, or had one approved. */
  ghost predicate RecordedSince(
      p: Pipeline, s: PipelineStatus, rs: seq<Request>, i: nat, n: nat, env: string, revision: string)
  {
    && i < n <= |rs| && ServedAt(p, s, rs, i).recorded == Some((env, revision))
    && forall j | i < j < n :: !SucceedsAt(p, s, rs, j, env) && !RecordsAt(p, s, rs, j, env)
  }

  predicate RecordsAt(p: Pipeline, s: PipelineStatus, rs: seq<Request>, i: nat, env: string)
    requires i < |rs|
  {
    ServedAt(p, s, rs, i).recorded.Some? && ServedAt(p, s, rs, i).recorded.value.0 == env
  }

  /** What waits after a request is what it recorded, or what waited before and was not approved. */
  lemma ServingKeepsOrRecords(p: Pipeline, s: PipelineStatus, r: Request, env: string)
    requires ValidRequest(r) && GetWaitingApproval(Serve(p, s, r).status.environments, env) != ""
    ensures var served := Serve(p, s, r); var revision := GetWaitingApproval(served.status.environments, env);
      || served.recorded == Some((env, revision))
      || (revision == GetWaitingApproval(s.environments, env)
          && !(Approves(r, env) && Success(served.response))
          && !(served.recorded.Some? && served.recorded.value.0 == env))
  {
  }

  lemma {:induction false} WaitingWasRecorded(p: Pipeline, s: PipelineStatus, rs: seq<Request>, n: nat, env: string)
    requires n <= |rs| && (forall r | r in rs :: ValidRequest(r))
    requires GetWaitingApproval(s.environments, env) == ""
    requires GetWaitingApproval(After(p, s, rs[..n]).environments, env) != ""
    ensures exists i ::
      RecordedSince(p, s, rs, i, n, env, GetWaitingApproval(After(p, s, rs[..n]).environments, env))
  {
    hide Serve;
    if n > 0 {
      assert rs[..n][..n - 1] == rs[..n - 1] && After(p, s, rs[..n]) == ServedAt(p, s, rs, n - 1).status;
      var revision := GetWaitingApproval(After(p, s, rs[..n]).environments, env);
      ServingKeepsOrRecords(p, After(p, s, rs[..n - 1]), rs[n - 1], env);
      if ServedAt(p, s, rs, n - 1).recorded == Some((env, revision)) {
        assert RecordedSince(p, s, rs, n - 1, n, env, revision);
      } else {
        WaitingWasRecorded(p, s, rs, n - 1, env);
        var i :| RecordedSince(p, s, rs, i, n - 1, env, revision);
        assert !SucceedsAt(p, s, rs, n - 1, env) && !RecordsAt(p, s, rs, n - 1, env);
        hide ServedAt, SucceedsAt, RecordsAt, After, GetWaitingApproval;
        assert RecordedSince(p, s, rs, i, n, env, revision);
      }
    }
  }

  /**
   In every serial run that starts with nothing waiting, a successful approval is of the revision that was recorded
   last, no other approval has succeeded since, and it leaves nothing waiting.
   */
  lemma SuccessfulApprovalWasRecorded(p: Pipeline, s: PipelineStatus, rs: seq<Request>, n: nat, env: string)
    requires n < |rs| && (forall r | r in rs :: ValidRequest(r))
    requires GetWaitingApproval(s.environments, env) == ""
    requires SucceedsAt(p, s, rs, n, env)
    ensures exists i :: RecordedSince(p, s, rs, i, n, env, rs[n].revision)
    ensures GetWaitingApproval(After(p, s, rs[..n + 1]).environments, env) == ""
  {
    assert rs[..n + 1][..n] == rs[..n];
    SuccessfulApprovalConsumes(p, After(p, s, rs[..n]), rs[n], env);
    WaitingWasRecorded(p, s, rs, n, env);
  }
}
