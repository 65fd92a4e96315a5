/** One reconciliation in terms of the objects it read: what it promotes, what it stores, and how it ends. */
module Outcome {
  import opened Options
  import opened Conditions
  import opened Api
  import opened Reconciler
  import opened Publication
  import opened Decision

  // == What is promoted ==

  /** Every object of environment `k` was read, is ready and runs the revision. */
  ghost predicate RunsReady(p: Pipeline, w: World, k: int, revision: string) {
    forall i | IsTarget(p, k, i) :: ObjectReady(p, p.environments[k].targets[i], w, revision)
  }

  ghost predicate ObjectReady(p: Pipeline, t: Target, w: World, revision: string) {
    && ReadObject(p, t, w).Some? && Usable(ReadObject(p, t, w).value)
    && AppliedRevision(p, t, w) == Some(revision)
  }

  /** No object of environment `k` that has a conditions list runs the revision, ready or not. */
  ghost predicate RunsNowhere(p: Pipeline, w: World, k: int, revision: string) {
    forall i | IsTarget(p, k, i) :: RunningRevision(p, p.environments[k].targets[i], w) != revision
  }

  /** Environment `k` is next for the revision, as the objects show. */
  ghost predicate IsNext(p: Pipeline, w: World, k: int, revision: string) {
    && 1 <= k < |p.environments| && revision != ""
    && p.environments[0].targets != [] && p.environments[k].targets != []
    && (forall j | 0 <= j < k :: RunsReady(p, w, j, revision))
    && RunsNowhere(p, w, k, revision)
  }

  /** The published statuses of an environment, one for each target, say what its objects show. */
  ghost predicate Show(p: Pipeline, w: World, k: int, ts: seq<TargetStatus>)
    requires 0 <= k < |p.environments|
  {
    && |ts| == |p.environments[k].targets|
    && forall i | 0 <= i < |ts| :: Shows(p, w, p.environments[k].targets[i], ts[i])
  }

  ghost predicate Shows(p: Pipeline, w: World, t: Target, s: TargetStatus) {
    s.revision == RunningRevision(p, t, w) && forall revision ::
      s.ready && s.revision == revision <==> ObjectReady(p, t, w, revision)
  }

  lemma PublishedShow(p: Pipeline, w: World, was: PipelineStatus, k: int)
    requires UniqueNames(p.environments) && Published(p, w, was).Some? && 0 <= k < |p.environments|
    ensures p.environments[k].name in Published(p, w, was).value.environments
    ensures Show(p, w, k, Published(p, w, was).value.environments[p.environments[k].name].targets)
  {
    PublishedStatusIsFaithful(p, w, was);
    var ts := Published(p, w, was).value.environments[p.environments[k].name].targets;
    hide Published, AppliedRevision, RunningRevision, ReadObject, ErrorNamesFailure, Usable;
    forall i | 0 <= i < |ts|
      ensures Shows(p, w, p.environments[k].targets[i], ts[i])
    {
      assert IsTarget(p, k, i);
    }
  }

  lemma ShownComplete(p: Pipeline, w: World, k: int, ts: seq<TargetStatus>, revision: string)
    requires 0 <= k < |p.environments| && Show(p, w, k, ts)
    ensures Complete(ts, revision) <==> RunsReady(p, w, k, revision)
  {
    hide ObjectReady, RunningRevision;
    forall i | 0 <= i < |ts|
      ensures ts[i] in ts
      ensures ts[i].ready && ts[i].revision == revision
        <==> ObjectReady(p, p.environments[k].targets[i], w, revision)
    {
      assert Shows(p, w, p.environments[k].targets[i], ts[i]);
    }
    hide Shows;
    if RunsReady(p, w, k, revision) {
      forall t | t in ts
        ensures t.ready && t.revision == revision
      {
        var i :| 0 <= i < |ts| && ts[i] == t;
        assert IsTarget(p, k, i);
      }
    }
  }

  lemma ShownAnywhere(p: Pipeline, w: World, k: int, ts: seq<TargetStatus>, revision: string)
    requires 0 <= k < |p.environments| && Show(p, w, k, ts)
    ensures AnyHasRevision(ts, revision) <==> !RunsNowhere(p, w, k, revision)
  {
    hide ObjectReady, RunningRevision;
    if t :| t in ts && t.revision == revision {
      var i :| 0 <= i < |ts| && ts[i] == t;
      assert IsTarget(p, k, i) && Shows(p, w, p.environments[k].targets[i], ts[i]);
    }
    if i :| IsTarget(p, k, i) && RunningRevision(p, p.environments[k].targets[i], w) == revision {
      assert Shows(p, w, p.environments[k].targets[i], ts[i]);
      assert ts[i] in ts;
    }
  }

  lemma StatusesShowObjects(p: Pipeline, w: World, was: PipelineStatus, k: int, revision: string)
    requires UniqueNames(p.environments) && Published(p, w, was).Some? && 0 <= k < |p.environments|
    ensures p.environments[k].name in Published(p, w, was).value.environments
    ensures var ts := Published(p, w, was).value.environments[p.environments[k].name].targets;
      && |ts| == |p.environments[k].targets|
      && (Complete(ts, revision) <==> RunsReady(p, w, k, revision))
      && (AnyHasRevision(ts, revision) <==> !RunsNowhere(p, w, k, revision))
  {
    PublishedShow(p, w, was, k);
    var ts := Published(p, w, was).value.environments[p.environments[k].name].targets;
    ShownComplete(p, w, k, ts, revision);
    ShownAnywhere(p, w, k, ts, revision);
  }

  lemma MayPromoteIsNext(p: Pipeline, w: World, was: PipelineStatus, k: int, revision: string)
    requires UniqueNames(p.environments) && Published(p, w, was).Some?
    ensures HasStatuses(p.environments, Published(p, w, was).value.environments)
    ensures MayPromote(p.environments, Published(p, w, was).value.environments, revision, k)
      <==> IsNext(p, w, k, revision)
  {
    CollectCoversAll(p, p.environments, w);
    if 1 <= k < |p.environments| {
      forall j | 0 <= j <= k
        ensures var ts := Published(p, w, was).value.environments[p.environments[j].name].targets;
          && |ts| == |p.environments[j].targets|
          && (Complete(ts, revision) <==> RunsReady(p, w, j, revision))
          && (AnyHasRevision(ts, revision) <==> !RunsNowhere(p, w, j, revision))
      {
        StatusesShowObjects(p, w, was, j, revision);
      }
      hide Published, RunsReady, RunsNowhere;
      var st := Published(p, w, was).value.environments;
      var first, ts := st[p.environments[0].name].targets, st[p.environments[k].name].targets;
      assert SettledAt(first, revision) <==> revision != "" && first != [] && Complete(first, revision);
      assert ts != [] && !AnyHasRevision(ts, revision) ==> !Complete(ts, revision) by {
        assert ts != [] ==> ts[0] in ts;
      }
      assert ts == [] ==> Complete(ts, revision);
    }
  }

  /**
   A reconciliation that can store its statuses issues a promotion exactly for the environment that is next: every
   object of the environments before it is ready at the revision, and no object of it runs the revision yet.
   */
  lemma PromotesExactlyTheNext(p: Pipeline, w: World, was: PipelineStatus, io: Io, issue: Issue)
    requires UniqueNames(p.environments)
    ensures Reconciled(p, w, was, io).issued == Some(issue) <==>
      && Publishes(p, w, was, io) && io.pending
      && p.promotion == Some(issue.config)
      && exists k :: IsNext(p, w, k, issue.revision) && issue.environment == p.environments[k]
                  && CanCall(p, p.environments[k], io)
  {
    if Publishes(p, w, was, io) && io.pending && p.environments != [] {
      PromotesTheLeastIncompleteEnvironment(p, w, was, io);
      var st := Published(p, w, was).value.environments;
      forall k
        ensures MayPromote(p.environments, st, issue.revision, k) <==> IsNext(p, w, k, issue.revision)
      {
        MayPromoteIsNext(p, w, was, k, issue.revision);
      }
      hide Published, IsNext, MayPromote, Reconciled, CanCall;
    }
  }

  // == What is stored ==

  ghost predicate SomeAborts(p: Pipeline, w: World) {
    exists k, i :: IsTarget(p, k, i) && CheckTarget(p, p.environments[k].targets[i], w).Abort?
  }

  lemma PublishedUnlessAborted(p: Pipeline, w: World, was: PipelineStatus)
    requires UniqueNames(p.environments)
    ensures Published(p, w, was).None? <==> SomeAborts(p, w)
  {
    hide CheckTarget;
    CollectPointwise(p, p.environments, w);
    forall k | 0 <= k < |p.environments|
      ensures CheckTargets(p, p.environments[k].targets, w).None?
        <==> exists i :: IsTarget(p, k, i) && CheckTarget(p, p.environments[k].targets[i], w).Abort?
    {
      CheckTargetsSomeIff(p, p.environments[k].targets, w);
      if i :| 0 <= i < |p.environments[k].targets| && CheckTarget(p, p.environments[k].targets[i], w).Abort? {
        assert IsTarget(p, k, i);
      }
    }
  }

  ghost predicate SomeUnread(p: Pipeline, w: World) {
    exists k, i :: IsTarget(p, k, i) && ReadObject(p, p.environments[k].targets[i], w).None?
  }

  /** All targets of the first environment run one revision. */
  ghost predicate FirstRuns(p: Pipeline, w: World, revision: string) {
    && p.environments != [] && p.environments[0].targets != [] && revision != ""
    && forall i | IsTarget(p, 0, i) :: RunningRevision(p, p.environments[0].targets[i], w) == revision
  }

  /** What the first environment is waiting for, as its objects show. */
  ghost function PendingFor(p: Pipeline, w: World): Option<Condition> {
    if exists revision :: FirstRuns(p, w, revision) && RunsReady(p, w, 0, revision) then None
    else
      var message := if exists revision :: FirstRuns(p, w, revision) then "Waiting for all targets to be ready"
                     else "Waiting for all targets to have the same revision";
      Some(Condition("PromotionPending", "True", "EnvironmentNotReady", message))
  }

  ghost function ReadyFor(p: Pipeline, w: World): Condition {
    if SomeUnread(p, w) then
      Condition("Ready", "False", "TargetNotReadable", "One or more targets was not reachable or not present")
    else Condition("Ready", "True", "ReconciliationSucceeded", "All clusters checked")
  }

  lemma FirstStatusesShow(p: Pipeline, w: World, ts: seq<TargetStatus>, revision: string)
    requires p.environments != [] && Show(p, w, 0, ts)
    ensures FirstRuns(p, w, revision) <==> ts != [] && revision != "" && AllRunRevision(ts, revision)
  {
    hide ObjectReady, RunningRevision;
    forall i | 0 <= i < |ts|
      ensures ts[i] in ts && ts[i].revision == RunningRevision(p, p.environments[0].targets[i], w)
    {
      assert Shows(p, w, p.environments[0].targets[i], ts[i]);
    }
    hide Shows;
    if FirstRuns(p, w, revision) {
      forall t | t in ts
        ensures t.revision == revision
      {
        var i :| 0 <= i < |ts| && ts[i] == t;
        assert IsTarget(p, 0, i);
      }
    }
  }

  lemma WaitingShowsObjects(p: Pipeline, w: World, was: PipelineStatus)
    requires UniqueNames(p.environments) && Published(p, w, was).Some? && p.environments != []
    ensures p.environments[0].name in Published(p, w, was).value.environments
    ensures var waiting := Waiting(Published(p, w, was).value.environments[p.environments[0].name].targets);
      PendingFor(p, w) == if waiting.None? then None else Some(PendingCondition(waiting.value))
  {
    PublishedShow(p, w, was, 0);
    var ts := Published(p, w, was).value.environments[p.environments[0].name].targets;
    forall revision
      ensures FirstRuns(p, w, revision) <==> ts != [] && revision != "" && AllRunRevision(ts, revision)
      ensures RunsReady(p, w, 0, revision) <==> Complete(ts, revision)
    {
      FirstStatusesShow(p, w, ts, revision);
      ShownComplete(p, w, 0, ts, revision);
    }
    hide Published, FirstRuns, RunsReady;
    if SameRevision(ts) != "" {
      assert FirstRuns(p, w, SameRevision(ts));
    }
    if revision :| FirstRuns(p, w, revision) {
      assert ts[0] in ts;
      assert SameRevision(ts) == revision;
    }
  }

  lemma PublishedConditions(p: Pipeline, w: World, was: PipelineStatus, kind: string)
    requires UniqueNames(p.environments) && Published(p, w, was).Some?
    ensures Published(p, w, was).value.observedGeneration == p.generation
    ensures FindCondition(Published(p, w, was).value.conditions, kind)
         == if kind == "Ready" then Some(ReadyFor(p, w)) else FindCondition(was.conditions, kind)
  {
    var unready := Collect(p, p.environments, w).value.unready;
    UnreadyShows(p, w, was);
    SetThenFind(was.conditions, ReadyCondition(unready), kind);
    hide Collect, SomeUnread, FindCondition, SetCondition;
  }

  lemma UnreadyShows(p: Pipeline, w: World, was: PipelineStatus)
    requires UniqueNames(p.environments) && Published(p, w, was).Some?
    ensures Collect(p, p.environments, w).value.unready <==> SomeUnread(p, w)
  {
    PublishedStatusIsFaithful(p, w, was);
    SetThenFind(was.conditions, ReadyCondition(Collect(p, p.environments, w).value.unready), READY);
    hide Collect, ReadObject, SetCondition, Faithful;
  }

  lemma MarkedConditions(s: PipelineStatus, waiting: Option<string>, kind: string)
    ensures MarkPending(s, waiting) == s.(conditions := MarkPending(s, waiting).conditions)
    ensures FindCondition(MarkPending(s, waiting).conditions, kind)
         == if kind != "PromotionPending" then FindCondition(s.conditions, kind)
            else if waiting.None? then None else Some(PendingCondition(waiting.value))
  {
    if waiting.None? {
      RemoveThenFind(s.conditions, PROMOTION_PENDING, kind);
    } else {
      SetThenFind(s.conditions, PendingCondition(waiting.value), kind);
    }
  }

  lemma StoredByDecision(p: Pipeline, s: PipelineStatus, io: Io)
    requires p.environments != [] && HasStatuses(p.environments, s.environments)
    ensures Decided(p, s, io).stored
         == if io.pending then MarkPending(s, Waiting(s.environments[p.environments[0].name].targets)) else s
  {
  }

  /** A reconciliation that does not publish stores nothing; otherwise the objects determine the stored status. */
  lemma StoresWhatObjectsShow(p: Pipeline, w: World, was: PipelineStatus, io: Io, kind: string)
    requires UniqueNames(p.environments)
    ensures var stored := Reconciled(p, w, was, io).stored;
      if !Publishes(p, w, was, io) then stored == was
      else
        && stored.observedGeneration == p.generation
        && stored.environments == Published(p, w, was).value.environments
        && FindCondition(stored.conditions, kind)
             == if kind == "Ready" then Some(ReadyFor(p, w))
                else if kind == "PromotionPending" && io.pending && p.environments != [] then PendingFor(p, w)
                else FindCondition(was.conditions, kind)
  {
    if Publishes(p, w, was, io) {
      var s := Published(p, w, was).value;
      CollectCoversAll(p, p.environments, w);
      PublishedConditions(p, w, was, kind);
      if p.environments != [] {
        StoredByDecision(p, s, io);
        WaitingShowsObjects(p, w, was);
        MarkedConditions(s, Waiting(s.environments[p.environments[0].name].targets), kind);
      }
      hide Published, PendingFor, ReadyFor, Waiting, Decided, MarkPending, FindCondition;
    }
  }

  // == How it ends ==

  /** The promotion of environment `k` fails: its strategy is not registered, or is called and fails. */
  ghost predicate PromotionFails(p: Pipeline, io: Io, k: int)
    requires 0 <= k < |p.environments|
  {
    && GetPromotion(p, p.environments[k].name).Some?
    && (io.registered(GetPromotion(p, p.environments[k].name).value) ==> p.promotion.Some? && !io.promote)
  }

  lemma DecidedFailsIff(p: Pipeline, s: PipelineStatus, io: Io)
    requires UniqueNames(p.environments) && p.environments != [] && HasStatuses(p.environments, s.environments)
    ensures Decided(p, s, io).end == Err <==>
      || !io.pending
      || exists k, revision :: MayPromote(p.environments, s.environments, revision, k) && PromotionFails(p, io, k)
  {
    var envs, st := p.environments, s.environments;
    var first := st[envs[0].name].targets;
    WaitingUnlessSettled(first);
    if io.pending && Waiting(first).None? {
      var revision := SameRevision(first);
      assert first[0] in first;
      assert forall r, k | MayPromote(envs, st, r, k) :: r == revision;
      NextPromotionMayPromote(envs, st, revision);
      hide MayPromote;
      if NextPromotion(envs[1..], st, revision).Some? {
        var k :| MayPromote(envs, st, revision, k) && NextPromotion(envs[1..], st, revision) == Some(envs[k]);
        assert forall j, r | MayPromote(envs, st, r, j) :: envs[j] == envs[k];
      }
    }
  }

  /** A reconciliation fails exactly when it aborts, a status cannot be written, or the promotion of the next fails. */
  lemma FailsIff(p: Pipeline, w: World, was: PipelineStatus, io: Io)
    requires UniqueNames(p.environments)
    ensures Reconciled(p, w, was, io).end == Err <==>
      !p.deleting && (SomeAborts(p, w) || !io.publish || (p.environments != [] && (!io.pending
        || exists k, revision :: IsNext(p, w, k, revision) && PromotionFails(p, io, k))))
  {
    PublishedUnlessAborted(p, w, was);
    if Published(p, w, was).Some? && p.environments != [] {
      CollectCoversAll(p, p.environments, w);
      DecidedFailsIff(p, Published(p, w, was).value, io);
      forall k, revision
        ensures MayPromote(p.environments, Published(p, w, was).value.environments, revision, k)
          <==> IsNext(p, w, k, revision)
      {
        MayPromoteIsNext(p, w, was, k, revision);
      }
    }
    hide Published, SomeAborts, IsNext, MayPromote, Decided;
  }
}
