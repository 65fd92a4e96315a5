/** Which promotion, if any, one reconciliation issues. */
module Decision {
  import opened Options
  import opened Conditions
  import opened Api
  import opened Reconciler

  /** Non-empty, all targets ready and at one non-empty revision. */
  predicate SettledAt(ts: seq<TargetStatus>, revision: string) {
    revision != "" && ts != [] && forall t | t in ts :: t.revision == revision && t.ready
  }

  ghost predicate Settled(ts: seq<TargetStatus>) {
    exists revision :: SettledAt(ts, revision)
  }

  lemma WaitingUnlessSettled(ts: seq<TargetStatus>)
    ensures Waiting(ts).None? <==> Settled(ts)
    ensures Waiting(ts).None? ==> SettledAt(ts, SameRevision(ts))
  {
    if Waiting(ts).None? {
      assert SettledAt(ts, SameRevision(ts));
    }
    if Settled(ts) {
      var revision :| SettledAt(ts, revision);
      assert ts[0] in ts;
    }
  }

  ghost predicate LeastIncomplete(envs: seq<Environment>, st: map<string, EnvironmentStatus>, revision: string, k: int)
    requires HasStatuses(envs, st)
  {
    && 0 <= k < |envs|
    && !Complete(st[envs[k].name].targets, revision)
    && forall j :: 0 <= j < k ==> Complete(st[envs[j].name].targets, revision)
  }

  lemma {:induction false} NextPromotionIsLeastIncomplete(
      envs: seq<Environment>, st: map<string, EnvironmentStatus>, revision: string)
    requires HasStatuses(envs, st)
    ensures NextPromotion(envs, st, revision).Some? ==>
      exists k :: LeastIncomplete(envs, st, revision, k) && !AnyHasRevision(st[envs[k].name].targets, revision)
               && NextPromotion(envs, st, revision) == Some(envs[k])
    ensures NextPromotion(envs, st, revision).None? ==>
      forall k :: LeastIncomplete(envs, st, revision, k) ==> AnyHasRevision(st[envs[k].name].targets, revision)
  {
    if envs != [] && Complete(st[envs[0].name].targets, revision) {
      var rest := envs[1..];
      NextPromotionIsLeastIncomplete(rest, st, revision);
      if NextPromotion(rest, st, revision).Some? {
        var k :| LeastIncomplete(rest, st, revision, k) && !AnyHasRevision(st[rest[k].name].targets, revision)
              && NextPromotion(rest, st, revision) == Some(rest[k]);
        assert forall j :: 0 < j <= k ==> envs[j] == rest[j - 1];
        assert LeastIncomplete(envs, st, revision, k + 1);
      }
      forall k | LeastIncomplete(envs, st, revision, k)
        ensures k >= 1 && LeastIncomplete(rest, st, revision, k - 1)
      {
        assert forall j :: 0 <= j < k - 1 ==> rest[j] == envs[j + 1];
      }
    } else if envs != [] {
      assert LeastIncomplete(envs, st, revision, 0);
      assert forall k :: LeastIncomplete(envs, st, revision, k) ==> k == 0;
    }
  }

  /** Environment `k` may be promoted to `revision`: all before it are done and none of its targets has it yet. */
  ghost predicate MayPromote(envs: seq<Environment>, st: map<string, EnvironmentStatus>, revision: string, k: int)
    requires HasStatuses(envs, st)
  {
    && 1 <= k < |envs|
    && SettledAt(st[envs[0].name].targets, revision)
    && (forall j :: 1 <= j < k ==> Complete(st[envs[j].name].targets, revision))
    && !Complete(st[envs[k].name].targets, revision)
    && !AnyHasRevision(st[envs[k].name].targets, revision)
  }

  lemma NextPromotionMayPromote(envs: seq<Environment>, st: map<string, EnvironmentStatus>, revision: string)
    requires envs != [] && HasStatuses(envs, st) && SettledAt(st[envs[0].name].targets, revision)
    ensures NextPromotion(envs[1..], st, revision).Some? ==>
      exists k :: MayPromote(envs, st, revision, k) && NextPromotion(envs[1..], st, revision) == Some(envs[k])
    ensures forall k | MayPromote(envs, st, revision, k) :: NextPromotion(envs[1..], st, revision) == Some(envs[k])
  {
    var later := envs[1..];
    NextPromotionIsLeastIncomplete(later, st, revision);
    if NextPromotion(later, st, revision).Some? {
      var k :| LeastIncomplete(later, st, revision, k) && !AnyHasRevision(st[later[k].name].targets, revision)
            && NextPromotion(later, st, revision) == Some(later[k]);
      assert forall j :: 1 <= j <= k + 1 ==> envs[j] == later[j - 1];
      assert MayPromote(envs, st, revision, k + 1);
    }
    forall k | MayPromote(envs, st, revision, k)
      ensures NextPromotion(later, st, revision) == Some(envs[k])
    {
      assert forall j :: 0 <= j < k ==> later[j] == envs[j + 1];
      assert LeastIncomplete(later, st, revision, k - 1);
      if NextPromotion(later, st, revision).Some? {
        var m :| LeastIncomplete(later, st, revision, m) && NextPromotion(later, st, revision) == Some(later[m]);
        assert m == k - 1;
      }
    }
  }

  /** The strategy can be called: one is configured and registered, and the default configuration exists. */
  predicate CanCall(p: Pipeline, env: Environment, io: Io) {
    GetPromotion(p, env.name).Some? && io.registered(GetPromotion(p, env.name).value) && p.promotion.Some?
  }

  ghost predicate IssuedFor(p: Pipeline, st: map<string, EnvironmentStatus>, io: Io, issue: Issue, k: int)
    requires HasStatuses(p.environments, st)
  {
    && MayPromote(p.environments, st, issue.revision, k)
    && issue.environment == p.environments[k]
    && CanCall(p, p.environments[k], io)
    && p.promotion == Some(issue.config)
  }

  /** The decision on published statuses `s`; `r` is what the reconciliation leaves behind. */
  ghost predicate DecidesRight(p: Pipeline, s: PipelineStatus, io: Io, r: Result)
    requires p.environments != [] && HasStatuses(p.environments, s.environments)
  {
    var envs, st := p.environments, s.environments;
    && r.stored.environments == st
    && (FindCondition(r.stored.conditions, PROMOTION_PENDING).None? <==> Settled(st[envs[0].name].targets))
    && (r.issued.Some? ==> exists k :: IssuedFor(p, st, io, r.issued.value, k))
    && (forall k, revision | MayPromote(envs, st, revision, k) && CanCall(p, envs[k], io) ::
          r.issued == Some(Issue(envs[k], revision, p.promotion.value)))
  }

  lemma DecidedDecidesRight(p: Pipeline, s: PipelineStatus, io: Io)
    requires p.environments != [] && HasStatuses(p.environments, s.environments) && io.pending
    ensures DecidesRight(p, s, io, Decided(p, s, io))
  {
    var envs, st, r := p.environments, s.environments, Decided(p, s, io);
    var first := st[envs[0].name].targets;
    WaitingUnlessSettled(first);
    if Waiting(first).Some? {
      SetThenFind(s.conditions, PendingCondition(Waiting(first).value), PROMOTION_PENDING);
    } else {
      RemoveThenFind(s.conditions, PROMOTION_PENDING, PROMOTION_PENDING);
      var revision := SameRevision(first);
      NextPromotionMayPromote(envs, st, revision);
      assert first[0] in first;
      if r.issued.Some? {
        var k :| MayPromote(envs, st, revision, k) && NextPromotion(envs[1..], st, revision) == Some(envs[k]);
        assert IssuedFor(p, st, io, r.issued.value, k);
      }
    }
  }

  /**
   A reconciliation issues at most one promotion, to the least environment that is not fully ready at the revision
   env 0 is settled at; it does so exactly when that environment has no target at the revision yet and its strategy
   can be called. The pending condition is stored exactly when env 0 is not settled.
   */
  lemma PromotesTheLeastIncompleteEnvironment(p: Pipeline, w: World, was: PipelineStatus, io: Io)
    requires !p.deleting && p.environments != [] && Published(p, w, was).Some? && io.publish && io.pending
    ensures HasStatuses(p.environments, Published(p, w, was).value.environments)
    ensures DecidesRight(p, Published(p, w, was).value, io, Reconciled(p, w, was, io))
  {
    CollectCoversAll(p, p.environments, w);
    DecidedDecidesRight(p, Published(p, w, was).value, io);
  }

  /** The environment that would be promoted has its own promotion, but the pipeline has no default. */
  ghost predicate LacksDefault(p: Pipeline, st: map<string, EnvironmentStatus>, io: Io, k: int)
    requires HasStatuses(p.environments, st)
  {
    && p.promotion.None?
    && exists revision :: MayPromote(p.environments, st, revision, k)
         && p.environments[k].promotion.Some? && io.registered(p.environments[k].promotion.value)
  }

  lemma DecidedPanicsIff(p: Pipeline, s: PipelineStatus, io: Io)
    requires UniqueNames(p.environments) && p.environments != [] && HasStatuses(p.environments, s.environments)
    ensures Decided(p, s, io).end == Panic <==> io.pending && exists k :: LacksDefault(p, s.environments, io, k)
  {
    var envs, st := p.environments, s.environments;
    var first := st[envs[0].name].targets;
    WaitingUnlessSettled(first);
    if Waiting(first).None? {
      var revision := SameRevision(first);
      assert first[0] in first;
      NextPromotionMayPromote(envs, st, revision);
      assert forall r, k | MayPromote(envs, st, r, k) :: r == revision;
      if NextPromotion(envs[1..], st, revision).Some? {
        var k :| MayPromote(envs, st, revision, k) && NextPromotion(envs[1..], st, revision) == Some(envs[k]);
        GetPromotionIsOwnElseDefault(envs, k, p.promotion);
        assert forall j | MayPromote(envs, st, revision, j) :: envs[j] == envs[k];
        assert Decided(p, s, io).end == Panic && io.pending ==> LacksDefault(p, st, io, k);
      }
    }
  }

  /** A reconciliation that gets as far as to publish the statuses. */
  predicate Publishes(p: Pipeline, w: World, was: PipelineStatus, io: Io) {
    !p.deleting && io.publish && Published(p, w, was).Some?
  }

  /**
   The reconciler dereferences nil exactly when it publishes the status of a pipeline without environments, or goes on
   to promote an environment that has its own registered promotion while the pipeline has no default.
   */
  lemma PanicsIff(p: Pipeline, w: World, was: PipelineStatus, io: Io)
    requires UniqueNames(p.environments)
    ensures Publishes(p, w, was, io) ==> HasStatuses(p.environments, Published(p, w, was).value.environments)
    ensures Reconciled(p, w, was, io).end == Panic
      <==> Publishes(p, w, was, io) && (p.environments == [] || (io.pending
             && exists k :: LacksDefault(p, Published(p, w, was).value.environments, io, k)))
  {
    if Publishes(p, w, was, io) {
      CollectCoversAll(p, p.environments, w);
      if p.environments != [] {
        DecidedPanicsIff(p, Published(p, w, was).value, io);
      }
    }
  }
}
