/** Once env 0 is settled, reconciliations bring every later environment to its revision, one promotion each. */
module Convergence {
  import opened Options
  import opened Api
  import opened Reconciler
  import opened Publication
  import opened Decision

  /** The target statuses of each environment, in the order of the specification. */
  type Table = seq<seq<TargetStatus>>

  /** No read of any target aborts the reconciliation. */
  predicate Reachable(p: Pipeline, w: World) {
    forall k | 0 <= k < |p.environments| :: CheckTargets(p, p.environments[k].targets, w).Some?
  }

  function TableOf(p: Pipeline, w: World): (t: Table)
    requires Reachable(p, w)
    ensures |t| == |p.environments|
  {
    seq(|p.environments|, k requires 0 <= k < |p.environments| => CheckTargets(p, p.environments[k].targets, w).value.0)
  }

  /** Every write succeeds and every strategy is registered. */
  predicate AllWell(io: Io, p: Pipeline) {
    && io.publish && io.pending && io.promote
    && p.promotion.Some?
    && forall env | env in p.environments ::
         GetPromotion(p, env.name).Some? && io.registered(GetPromotion(p, env.name).value)
  }

  /** Env 0 is settled at the revision; each later environment has it completely, or on no target. */
  predicate InProgress(t: Table, revision: string) {
    && t != [] && SettledAt(t[0], revision)
    && forall k | 1 <= k < |t| :: Complete(t[k], revision) || !AnyHasRevision(t[k], revision)
  }

  predicate AllComplete(t: Table, revision: string) {
    forall k | 0 <= k < |t| :: Complete(t[k], revision)
  }

  /** How many of the environments 1 to n-1 are not complete at the revision. */
  function Incomplete(t: Table, revision: string, n: nat): nat
    requires n <= |t|
  {
    if n <= 1 then 0
    else Incomplete(t, revision, n - 1) + if Complete(t[n - 1], revision) then 0 else 1
  }

  /** The strategy makes all targets of environment k ready at the revision, and touches no other environment. */
  predicate Lands(t: Table, t': Table, k: int, revision: string) {
    0 <= k < |t| == |t'| && Complete(t'[k], revision) && t' == t[k := t'[k]]
  }

  /** One reconciliation of the world `w`, and what its promotion, if any, makes of the statuses. */
  ghost predicate Round(p: Pipeline, w: World, w': World, was: PipelineStatus, io: Io) {
    && Reachable(p, w) && Reachable(p, w')
    && match Reconciled(p, w, was, io).issued
       case None => TableOf(p, w') == TableOf(p, w)
       case Some(issue) =>
         exists k :: Lands(TableOf(p, w), TableOf(p, w'), k, issue.revision) && p.environments[k] == issue.environment
  }

  lemma {:induction false} LandingCountsOne(t: Table, t': Table, revision: string, k: int, n: nat)
    requires n <= |t| && Lands(t, t', k, revision) && k >= 1 && !Complete(t[k], revision)
    ensures Incomplete(t', revision, n) == Incomplete(t, revision, n) - if k < n then 1 else 0
  {
    if n > 1 {
      LandingCountsOne(t, t', revision, k, n - 1);
    }
  }

  lemma {:induction false} NoneIncomplete(t: Table, revision: string, n: nat)
    requires n <= |t|
    ensures Incomplete(t, revision, n) == 0 <==> forall k | 1 <= k < n :: Complete(t[k], revision)
    ensures n >= 1 ==> Incomplete(t, revision, n) <= n - 1
  {
    if n > 1 {
      NoneIncomplete(t, revision, n - 1);
    }
  }

  lemma LeastIncompleteExists(t: Table, revision: string) returns (k: int)
    requires Incomplete(t, revision, |t|) > 0
    ensures 1 <= k < |t| && !Complete(t[k], revision)
    ensures forall j | 1 <= j < k :: Complete(t[j], revision)
  {
    NoneIncomplete(t, revision, |t|);
    k := 1;
    while Complete(t[k], revision)
      invariant 1 <= k < |t|
      invariant forall j | 1 <= j < k :: Complete(t[j], revision)
      decreases |t| - k
    {
      k := k + 1;
    }
  }

  /** The published statuses are those of the environments, by name. */
  lemma PublishedTable(p: Pipeline, w: World, was: PipelineStatus)
    requires UniqueNames(p.environments) && Reachable(p, w)
    ensures Published(p, w, was).Some?
    ensures HasStatuses(p.environments, Published(p, w, was).value.environments)
    ensures forall k | 0 <= k < |p.environments| ::
      Published(p, w, was).value.environments[p.environments[k].name].targets == TableOf(p, w)[k]
  {
    CollectPointwise(p, p.environments, w);
    CollectCoversAll(p, p.environments, w);
  }

  /** What a reconciliation issues, in terms of the table: the least incomplete environment at the revision. */
  lemma IssuesLeastIncomplete(p: Pipeline, w: World, was: PipelineStatus, io: Io, revision: string)
    requires UniqueNames(p.environments) && !p.deleting && AllWell(io, p) && Reachable(p, w)
    requires InProgress(TableOf(p, w), revision)
    ensures var t, issued := TableOf(p, w), Reconciled(p, w, was, io).issued;
      && (Incomplete(t, revision, |t|) == 0 ==> issued.None?)
      && (Incomplete(t, revision, |t|) > 0 ==>
            exists k :: 1 <= k < |t| && !Complete(t[k], revision)
                     && issued == Some(Issue(p.environments[k], revision, p.promotion.value)))
  {
    var t, envs := TableOf(p, w), p.environments;
    PublishedTable(p, w, was);
    PromotesTheLeastIncompleteEnvironment(p, w, was, io);
    var st, issued := Published(p, w, was).value.environments, Reconciled(p, w, was, io).issued;
    NoneIncomplete(t, revision, |t|);
    if Incomplete(t, revision, |t|) > 0 {
      var k := LeastIncompleteExists(t, revision);
      assert MayPromote(envs, st, revision, k) && CanCall(p, envs[k], io);
    }
  }

  /** Each reconciliation promotes exactly when an environment is incomplete, and then completes one of them. */
  lemma RoundCompletesOne(p: Pipeline, w: World, w': World, was: PipelineStatus, io: Io, revision: string)
    requires UniqueNames(p.environments) && !p.deleting && AllWell(io, p) && Round(p, w, w', was, io)
    requires InProgress(TableOf(p, w), revision)
    ensures InProgress(TableOf(p, w'), revision)
    ensures var t, t', issued := TableOf(p, w), TableOf(p, w'), Reconciled(p, w, was, io).issued;
      && (issued.Some? <==> Incomplete(t, revision, |t|) > 0)
      && Incomplete(t', revision, |t'|) == Incomplete(t, revision, |t|) - if issued.Some? then 1 else 0
  {
    var t, t', issued := TableOf(p, w), TableOf(p, w'), Reconciled(p, w, was, io).issued;
    IssuesLeastIncomplete(p, w, was, io, revision);
    if issued.Some? {
      var k :| Lands(t, t', k, revision) && p.environments[k] == issued.value.environment;
      assert k >= 1 && !Complete(t[k], revision);
      LandingCountsOne(t, t', revision, k, |t|);
    }
  }

  /** Env 0 is settled, and `c` of the later environments are incomplete. */
  ghost predicate Left(p: Pipeline, w: World, revision: string, c: nat) {
    && Reachable(p, w) && InProgress(TableOf(p, w), revision)
    && Incomplete(TableOf(p, w), revision, |p.environments|) == c
  }

  lemma RoundLeavesOneLess(p: Pipeline, w: World, w': World, was: PipelineStatus, io: Io, revision: string, c: nat)
    requires UniqueNames(p.environments) && !p.deleting && AllWell(io, p)
    requires Left(p, w, revision, c) && Round(p, w, w', was, io)
    ensures Left(p, w', revision, if c > 0 then c - 1 else 0)
    ensures Reconciled(p, w, was, io).issued.Some? <==> c > 0
  {
    RoundCompletesOne(p, w, w', was, io, revision);
  }

  lemma NothingLeftIsComplete(p: Pipeline, w: World, revision: string, c: nat)
    requires Left(p, w, revision, c)
    ensures c <= |p.environments| - 1
    ensures c == 0 <==> AllComplete(TableOf(p, w), revision)
  {
    NoneIncomplete(TableOf(p, w), revision, |p.environments|);
  }

  /** Worlds, each the outcome of one round on the one before. */
  ghost predicate IsRollout(p: Pipeline, ws: seq<World>, was: seq<PipelineStatus>, io: Io) {
    && ws != [] && |was| == |ws|
    && forall n | 0 <= n < |ws| - 1 :: RoundAt(p, ws, was, io, n)
  }

  ghost predicate RoundAt(p: Pipeline, ws: seq<World>, was: seq<PipelineStatus>, io: Io, n: int) {
    0 <= n < |ws| - 1 && |was| == |ws| && Round(p, ws[n], ws[n + 1], was[n], io)
  }

  function Remaining(c: nat, n: nat): nat {
    if n <= c then c - n else 0
  }

  lemma {:induction false} LeftAfter(
      p: Pipeline, ws: seq<World>, was: seq<PipelineStatus>, io: Io, revision: string, c: nat, n: nat)
    requires UniqueNames(p.environments) && !p.deleting && AllWell(io, p)
    requires IsRollout(p, ws, was, io) && Left(p, ws[0], revision, c) && n < |ws|
    ensures Left(p, ws[n], revision, Remaining(c, n))
  {
    hide Round, Left, AllWell;
    if n > 0 {
      LeftAfter(p, ws, was, io, revision, c, n - 1);
      assert RoundAt(p, ws, was, io, n - 1);
      RoundLeavesOneLess(p, ws[n - 1], ws[n], was[n - 1], io, revision, Remaining(c, n - 1));
      assert Remaining(c, n) == if Remaining(c, n - 1) > 0 then Remaining(c, n - 1) - 1 else 0;
    }
  }

  /**
   Convergence: with c environments incomplete at the start (at most all but the first), the first c reconciliations
   promote one environment each, everything is complete after them, and no later one promotes.
   */
  lemma RolloutConverges(
      p: Pipeline, ws: seq<World>, was: seq<PipelineStatus>, io: Io, revision: string, c: nat, n: nat)
    requires UniqueNames(p.environments) && !p.deleting && AllWell(io, p)
    requires IsRollout(p, ws, was, io) && Left(p, ws[0], revision, c) && n < |ws|
    ensures c <= |p.environments| - 1
    ensures Left(p, ws[n], revision, Remaining(c, n))
    ensures n < |ws| - 1 ==> (Reconciled(p, ws[n], was[n], io).issued.Some? <==> n < c)
    ensures n >= c <==> AllComplete(TableOf(p, ws[n]), revision)
  {
    NothingLeftIsComplete(p, ws[0], revision, c);
    LeftAfter(p, ws, was, io, revision, c, n);
    NothingLeftIsComplete(p, ws[n], revision, Remaining(c, n));
    if n < |ws| - 1 {
      assert RoundAt(p, ws, was, io, n);
      RoundLeavesOneLess(p, ws[n], ws[n + 1], was[n], io, revision, Remaining(c, n));
    }
  }
}
