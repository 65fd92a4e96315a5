/**
 Whole runs of the level-triggered controller. Reads of one reconciliation interleave with changes of the world;
 issued promotions land at any later time, on any targets of their environment.
 */
module Rollout {
  import opened Options
  import opened Api
  import opened Reconciler
  import opened Publication
  import opened Decision

  /**
   `partial` holds the statuses the reconciliation in flight has read so far, by environment and target index.
   */
  datatype State = State(world: World, running: bool, partial: map<(int, int), TargetStatus>, issued: set<Issue>)

  /** The revisions that were deployed before the run: environment index, target index, revision. */
  type Initial = (int, int, string) -> bool

  function TargetAt(p: Pipeline, k: int, i: int): Target
    requires IsTarget(p, k, i)
  {
    p.environments[k].targets[i]
  }

  predicate IssuedTo(p: Pipeline, issued: set<Issue>, k: int, revision: string)
    requires 0 <= k < |p.environments|
  {
    exists issue | issue in issued :: issue.environment == p.environments[k] && issue.revision == revision
  }

  /** Later environments run initial or issued revisions only; env 0 is free. */
  ghost predicate Explained(p: Pipeline, initial: Initial, w: World, issued: set<Issue>) {
    forall k, i | IsTarget(p, k, i) && k >= 1 ::
      match AppliedRevision(p, TargetAt(p, k, i), w)
      case None => true
      case Some(revision) => initial(k, i, revision) || IssuedTo(p, issued, k, revision)
  }

  ghost predicate Init(p: Pipeline, initial: Initial, s: State) {
    !s.running && s.partial == map[] && s.issued == {} && Explained(p, initial, s.world, {})
  }

  ghost predicate WorldChanges(p: Pipeline, initial: Initial, s: State, s': State) {
    s' == s.(world := s'.world) && Explained(p, initial, s'.world, s.issued)
  }

  predicate Begins(s: State, s': State) {
    !s.running && s'.running && s'.partial == map[] && s'.issued == s.issued
  }

  /** What one read records: the status of the object as it is now, or that of an unread target. */
  predicate ReadsAs(p: Pipeline, t: Target, w: World, status: TargetStatus) {
    || (CheckTarget(p, t, w).Checked? && status == CheckTarget(p, t, w).status)
    || (!status.ready && status.revision == "")
  }

  ghost predicate Reads(p: Pipeline, s: State, s': State) {
    exists k, i, status ::
      && IsTarget(p, k, i) && s.running && (k, i) !in s.partial
      && ReadsAs(p, TargetAt(p, k, i), s.world, status)
      && s' == s.(partial := s.partial[(k, i) := status])
  }

  predicate GivesUp(s: State, s': State) {
    s.running && !s'.running && s'.partial == map[] && s'.issued == s.issued
  }

  /** The collected statuses are exactly the ones that were read. */
  ghost predicate Assembled(p: Pipeline, partial: map<(int, int), TargetStatus>, st: map<string, EnvironmentStatus>) {
    && HasStatuses(p.environments, st)
    && (forall k :: 0 <= k < |p.environments| ==>
          |st[p.environments[k].name].targets| == |p.environments[k].targets|)
    && (forall k, i | IsTarget(p, k, i) ::
          (k, i) in partial && st[p.environments[k].name].targets[i] == partial[(k, i)])
  }

  ghost predicate DecidesOn(p: Pipeline, s: State, status: PipelineStatus, io: Io, s': State)
    requires p.environments != []
  {
    && s.running && !s'.running && s'.partial == map[]
    && Assembled(p, s.partial, status.environments)
    && var issued := Decided(p, status, io).issued;
       s'.issued == s.issued + if issued.Some? then {issued.value} else {}
  }

  ghost predicate Decides(p: Pipeline, s: State, s': State)
    requires p.environments != []
  {
    exists status, io :: DecidesOn(p, s, status, io, s')
  }

  ghost predicate Next(p: Pipeline, initial: Initial, s: State, s': State)
    requires p.environments != []
  {
    || WorldChanges(p, initial, s, s')
    || (s'.world == s.world && (Begins(s, s') || Reads(p, s, s') || GivesUp(s, s') || Decides(p, s, s')))
  }

  ghost predicate IsRun(p: Pipeline, initial: Initial, run: seq<State>)
    requires p.environments != []
  {
    && run != [] && Init(p, initial, run[0])
    && forall n | 0 <= n < |run| - 1 :: StepAt(p, initial, run, n)
  }

  ghost predicate StepAt(p: Pipeline, initial: Initial, run: seq<State>, n: int)
    requires p.environments != []
  {
    0 <= n < |run| - 1 && Next(p, initial, run[n], run[n + 1])
  }

  /** Every target of environment `j` was read as ready at `revision`. */
  ghost predicate SawReady(p: Pipeline, s: State, j: int, revision: string) {
    forall i | IsTarget(p, j, i) ::
      (j, i) in s.partial && s.partial[(j, i)].ready && s.partial[(j, i)].revision == revision
  }

  /** A reconciliation that has read everything, and found environments 0 to k-1 ready at `revision`. */
  ghost predicate Observed(p: Pipeline, s: State, k: int, revision: string) {
    && s.running && revision != "" && 1 <= k < |p.environments| && p.environments[0].targets != []
    && forall j | 0 <= j < k :: SawReady(p, s, j, revision)
  }

  /** No target of environment `k` was read as running `revision`. */
  ghost predicate SawNone(p: Pipeline, s: State, k: int, revision: string) {
    forall i | IsTarget(p, k, i) :: (k, i) in s.partial && s.partial[(k, i)].revision != revision
  }

  lemma DecisionWasObserved(p: Pipeline, s: State, status: PipelineStatus, io: Io, s': State, issue: Issue)
    requires UniqueNames(p.environments) && p.environments != []
    requires DecidesOn(p, s, status, io, s') && Decided(p, status, io).issued == Some(issue)
    ensures exists k :: Observed(p, s, k, issue.revision) && SawNone(p, s, k, issue.revision)
                     && issue.environment == p.environments[k]
  {
    DecidedIssuesOnlyWhenPending(p, status, io);
    DecidedDecidesRight(p, status, io);
    var st := status.environments;
    var k :| IssuedFor(p, st, io, issue, k);
    forall j | 0 <= j < k
      ensures SawReady(p, s, j, issue.revision)
    {
      var ts := st[p.environments[j].name].targets;
      forall i | IsTarget(p, j, i)
        ensures s.partial[(j, i)].ready && s.partial[(j, i)].revision == issue.revision
      {
        assert ts[i] in ts && ts[i] == s.partial[(j, i)];
      }
    }
    forall i | IsTarget(p, k, i)
      ensures s.partial[(k, i)].revision != issue.revision
    {
      var ts := st[p.environments[k].name].targets;
      assert ts[i] in ts && ts[i] == s.partial[(k, i)];
    }
    assert |st[p.environments[0].name].targets| == |p.environments[0].targets|;
    assert Observed(p, s, k, issue.revision);
  }

  lemma DecidedIssuesOnlyWhenPending(p: Pipeline, status: PipelineStatus, io: Io)
    requires p.environments != [] && HasStatuses(p.environments, status.environments)
    ensures Decided(p, status, io).issued.Some? ==> io.pending
  {
  }

  /** The step from one state to the other is a decision that issues the promotion. */
  ghost predicate Issues(p: Pipeline, s: State, s': State, issue: Issue)
    requires p.environments != []
  {
    exists status, io :: DecidesOn(p, s, status, io, s') && Decided(p, status, io).issued == Some(issue)
  }

  ghost predicate IssuesAt(p: Pipeline, run: seq<State>, m: int, issue: Issue)
    requires p.environments != []
  {
    0 <= m < |run| - 1 && Issues(p, run[m], run[m + 1], issue)
  }

  /**
   Each decision, whether or not the same promotion was issued before, follows a reading of environments 0 to k-1 as
   ready at the revision, and of no target of environment `k` as running it.
   */
  lemma EveryDecisionIsWarranted(p: Pipeline, run: seq<State>, m: int, k: int, issue: Issue)
    requires UniqueNames(p.environments) && p.environments != [] && IssuesAt(p, run, m, issue)
    requires 0 <= k < |p.environments| && issue.environment == p.environments[k]
    ensures Observed(p, run[m], k, issue.revision) && SawNone(p, run[m], k, issue.revision)
  {
    var status, io :| DecidesOn(p, run[m], status, io, run[m + 1]) && Decided(p, status, io).issued == Some(issue);
    DecisionWasObserved(p, run[m], status, io, run[m + 1], issue);
    var j :| Observed(p, run[m], j, issue.revision) && SawNone(p, run[m], j, issue.revision)
          && issue.environment == p.environments[j];
    assert j == k;
  }

  /** Step `m` of the run is the decision that issued it, after environments 0 to k-1 were seen ready. */
  ghost predicate IssuedAt(p: Pipeline, run: seq<State>, m: int, k: int, revision: string)
    requires p.environments != []
  {
    && 0 <= m < |run| - 1 && Observed(p, run[m], k, revision) && SawNone(p, run[m], k, revision)
    && exists issue :: IssuesAt(p, run, m, issue)
         && issue.environment == p.environments[k] && issue.revision == revision
  }

  lemma {:induction false} IssuedAfterObservation(p: Pipeline, initial: Initial, run: seq<State>, n: nat, issue: Issue)
    requires UniqueNames(p.environments) && p.environments != [] && IsRun(p, initial, run)
    requires n < |run| && issue in run[n].issued
    ensures exists m, k :: m < n && IssuedAt(p, run, m, k, issue.revision) && issue.environment == p.environments[k]
  {
    if n > 0 {
      assert StepAt(p, initial, run, n - 1);
      if issue in run[n - 1].issued {
        IssuedAfterObservation(p, initial, run, n - 1, issue);
      } else {
        var status, io :| DecidesOn(p, run[n - 1], status, io, run[n]);
        DecisionWasObserved(p, run[n - 1], status, io, run[n], issue);
        var k :| Observed(p, run[n - 1], k, issue.revision) && SawNone(p, run[n - 1], k, issue.revision)
              && issue.environment == p.environments[k];
        assert IssuesAt(p, run, n - 1, issue);
        assert IssuedAt(p, run, n - 1, k, issue.revision);
      }
    }
  }

  lemma {:induction false} AlwaysExplained(p: Pipeline, initial: Initial, run: seq<State>, n: nat)
    requires p.environments != [] && IsRun(p, initial, run) && n < |run|
    ensures Explained(p, initial, run[n].world, run[n].issued)
  {
    if n > 0 {
      AlwaysExplained(p, initial, run, n - 1);
      assert StepAt(p, initial, run, n - 1);
      assert run[n - 1].issued <= run[n].issued;
      forall k, i | IsTarget(p, k, i) && k >= 1 && AppliedRevision(p, TargetAt(p, k, i), run[n].world).Some?
        ensures var revision := AppliedRevision(p, TargetAt(p, k, i), run[n].world).value;
          initial(k, i, revision) || IssuedTo(p, run[n].issued, k, revision)
      {
      }
    }
  }

  /** Step `m` of the reconciliation still in flight at `n` read the target while its object was in that state. */
  ghost predicate ReadAt(p: Pipeline, run: seq<State>, m: int, n: int, k: int, i: int) {
    && 0 <= m < n < |run| && IsTarget(p, k, i) && (k, i) in run[n].partial
    && ReadsAs(p, TargetAt(p, k, i), run[m].world, run[n].partial[(k, i)])
    && forall x :: m <= x <= n ==> run[x].running
  }

  lemma {:induction false} PartialWasRead(p: Pipeline, initial: Initial, run: seq<State>, n: nat, k: int, i: int)
    requires p.environments != [] && IsRun(p, initial, run) && n < |run| && IsTarget(p, k, i)
    requires (k, i) in run[n].partial
    ensures exists m :: ReadAt(p, run, m, n, k, i)
  {
    if n > 0 {
      assert StepAt(p, initial, run, n - 1);
      if (k, i) in run[n - 1].partial {
        PartialWasRead(p, initial, run, n - 1, k, i);
        var m :| ReadAt(p, run, m, n - 1, k, i);
        assert ReadAt(p, run, m, n, k, i);
      } else {
        assert ReadAt(p, run, n - 1, n, k, i);
      }
    }
  }

  /** The object behind the target was ready at the revision at step `m`. */
  ghost predicate WasReadyAt(p: Pipeline, run: seq<State>, m: int, k: int, i: int, revision: string) {
    && 0 <= m < |run| && IsTarget(p, k, i)
    && ReadObject(p, TargetAt(p, k, i), run[m].world).Some?
    && Usable(ReadObject(p, TargetAt(p, k, i), run[m].world).value)
    && AppliedRevision(p, TargetAt(p, k, i), run[m].world) == Some(revision)
  }

  /**
   Rollout order: whatever revision runs in environment k and was not there initially, one reconciliation had read
   every target of environments 0 to k-1 as ready at it before, and each was in that state when it was read.
   */
  lemma RevisionsArriveInOrder(p: Pipeline, initial: Initial, run: seq<State>, n: nat, k: int, i: int)
    requires UniqueNames(p.environments) && p.environments != [] && IsRun(p, initial, run)
    requires n < |run| && IsTarget(p, k, i) && k >= 1
    requires AppliedRevision(p, TargetAt(p, k, i), run[n].world).Some?
    requires !initial(k, i, AppliedRevision(p, TargetAt(p, k, i), run[n].world).value)
    ensures var revision := AppliedRevision(p, TargetAt(p, k, i), run[n].world).value;
      exists d :: d < n && IssuedAt(p, run, d, k, revision) && forall j, i' | IsTarget(p, j, i') && j < k ::
        exists m :: ReadAt(p, run, m, d, j, i') && WasReadyAt(p, run, m, j, i', revision)
  {
    var revision := AppliedRevision(p, TargetAt(p, k, i), run[n].world).value;
    AlwaysExplained(p, initial, run, n);
    var issue :| issue in run[n].issued && issue.environment == p.environments[k] && issue.revision == revision;
    IssuedAfterObservation(p, initial, run, n, issue);
    var d, k' :| d < n && IssuedAt(p, run, d, k', issue.revision) && issue.environment == p.environments[k'];
    assert k' == k;
    forall j, i' | IsTarget(p, j, i') && j < k
      ensures exists m :: ReadAt(p, run, m, d, j, i') && WasReadyAt(p, run, m, j, i', revision)
    {
      assert SawReady(p, run[d], j, revision);
      PartialWasRead(p, initial, run, d, j, i');
      var m :| ReadAt(p, run, m, d, j, i');
      CheckTargetIsFaithful(p, TargetAt(p, j, i'), run[m].world);
      assert WasReadyAt(p, run, m, j, i', revision);
    }
  }

  // == A reconciliation that sees one world all along is a run of these steps ==

  /** Targets in the order they are read: all of the environments before `k`, and those before `i` in it. */
  predicate Before(k: int, i: int, k': int, i': int) {
    k < k' || (k == k' && i < i')
  }

  /** Exactly the targets before that one have been read, all in this world. */
  ghost predicate ReadUpTo(p: Pipeline, w: World, partial: map<(int, int), TargetStatus>, k: int, i: int) {
    && (forall j, n :: (j, n) in partial <==> IsTarget(p, j, n) && Before(j, n, k, i))
    && (forall j, n | IsTarget(p, j, n) && Before(j, n, k, i) ::
          (j, n) in partial && CheckTarget(p, TargetAt(p, j, n), w).Checked?
          && partial[(j, n)] == CheckTarget(p, TargetAt(p, j, n), w).status)
  }

  function Last(run: seq<State>): State
    requires run != []
  {
    run[|run| - 1]
  }

  /** From state `n` on the world is `w`. */
  ghost predicate WorldIs(run: seq<State>, n: nat, w: World) {
    forall x :: n <= x < |run| ==> run[x].world == w
  }

  lemma Extend(p: Pipeline, initial: Initial, run: seq<State>, s: State)
    requires p.environments != [] && IsRun(p, initial, run) && Next(p, initial, Last(run), s)
    ensures IsRun(p, initial, run + [s])
  {
    hide Next;
    var longer := run + [s];
    forall n | 0 <= n < |longer| - 1
      ensures StepAt(p, initial, longer, n)
    {
      assert n < |run| - 1 ==> StepAt(p, initial, run, n);
    }
  }

  /** The run goes on to read the targets up to number `i` of environment `k`. */
  lemma {:induction false} ReadTargets(p: Pipeline, initial: Initial, run: seq<State>, k: nat, i: nat)
    returns (run': seq<State>)
    requires p.environments != [] && IsRun(p, initial, run) && Last(run).running
    requires k < |p.environments| && i <= |p.environments[k].targets|
    requires forall n | IsTarget(p, k, n) :: CheckTarget(p, TargetAt(p, k, n), Last(run).world).Checked?
    requires ReadUpTo(p, Last(run).world, Last(run).partial, k, 0)
    ensures IsRun(p, initial, run') && run <= run' && WorldIs(run', |run| - 1, Last(run).world)
    ensures Last(run') == Last(run).(partial := Last(run').partial)
    ensures ReadUpTo(p, Last(run).world, Last(run').partial, k, i)
    decreases i
  {
    assert run != [];
    hide IsRun, Explained;
    if i == 0 {
      run' := run;
    } else {
      run' := ReadTargets(p, initial, run, k, i - 1);
      hide CheckTarget;
      var s := Last(run');
      var status := CheckTarget(p, TargetAt(p, k, i - 1), s.world).status;
      var s' := s.(partial := s.partial[(k, i - 1) := status]);
      assert ReadsAs(p, TargetAt(p, k, i - 1), s.world, status);
      assert Reads(p, s, s');
      Extend(p, initial, run', s');
      run' := run' + [s'];
    }
  }

  lemma {:induction false} ReadEnvironments(p: Pipeline, initial: Initial, run: seq<State>, k: nat)
    returns (run': seq<State>)
    requires p.environments != [] && IsRun(p, initial, run) && Last(run).running && Last(run).partial == map[]
    requires k <= |p.environments|
    requires forall j, n | IsTarget(p, j, n) :: CheckTarget(p, TargetAt(p, j, n), Last(run).world).Checked?
    ensures IsRun(p, initial, run') && run <= run' && WorldIs(run', |run| - 1, Last(run).world)
    ensures Last(run') == Last(run).(partial := Last(run').partial)
    ensures ReadUpTo(p, Last(run).world, Last(run').partial, k, 0)
    decreases k
  {
    assert run != [];
    hide CheckTarget, IsRun;
    if k == 0 {
      run' := run;
    } else {
      var read := ReadEnvironments(p, initial, run, k - 1);
      run' := ReadTargets(p, initial, read, k - 1, |p.environments[k - 1].targets|);
      assert forall x :: 0 <= x < |read| ==> run'[x] == read[x];
      forall j, n | IsTarget(p, j, n)
        ensures Before(j, n, k, 0) <==> Before(j, n, k - 1, |p.environments[k - 1].targets|)
      {
      }
    }
  }

  lemma ReadAllIsAssembled(p: Pipeline, w: World, was: PipelineStatus, partial: map<(int, int), TargetStatus>)
    requires UniqueNames(p.environments) && Published(p, w, was).Some?
    requires ReadUpTo(p, w, partial, |p.environments|, 0)
    ensures Assembled(p, partial, Published(p, w, was).value.environments)
  {
    hide CheckTarget;
    CollectPointwise(p, p.environments, w);
    forall k | 0 <= k < |p.environments| {
      CheckTargetsPointwise(p, p.environments[k].targets, w);
    }
  }

  lemma AllChecked(p: Pipeline, w: World, was: PipelineStatus)
    requires UniqueNames(p.environments) && Published(p, w, was).Some?
    ensures forall k, i | IsTarget(p, k, i) :: CheckTarget(p, TargetAt(p, k, i), w).Checked?
  {
    hide CheckTarget;
    CollectPointwise(p, p.environments, w);
    forall k | 0 <= k < |p.environments| {
      CheckTargetsPointwise(p, p.environments[k].targets, w);
    }
  }

  /** The decision of a reconciliation that has read everything in the present world. */
  lemma DecideOn(p: Pipeline, initial: Initial, run: seq<State>, was: PipelineStatus, io: Io)
    returns (done: State)
    requires UniqueNames(p.environments) && p.environments != [] && !p.deleting && io.publish
    requires IsRun(p, initial, run) && Last(run).running && Published(p, Last(run).world, was).Some?
    requires Assembled(p, Last(run).partial, Published(p, Last(run).world, was).value.environments)
    ensures IsRun(p, initial, run + [done]) && !done.running && done.world == Last(run).world
    ensures var issued := Reconciled(p, Last(run).world, was, io).issued;
      && done.issued == Last(run).issued + (if issued.Some? then {issued.value} else {})
      && (issued.Some? ==> IssuesAt(p, run + [done], |run| - 1, issued.value))
  {
    var s := Last(run);
    var status := Published(p, s.world, was).value;
    var issued := Decided(p, status, io).issued;
    done := State(s.world, false, map[], s.issued + if issued.Some? then {issued.value} else {});
    assert DecidesOn(p, s, status, io, done);
    Extend(p, initial, run, done);
    assert (run + [done])[|run| - 1] == s && (run + [done])[|run|] == done;
  }

  /** A reconciliation begins, and reads all targets in the present world. */
  lemma ReadAll(p: Pipeline, initial: Initial, run: seq<State>, was: PipelineStatus) returns (read: seq<State>)
    requires UniqueNames(p.environments) && p.environments != []
    requires IsRun(p, initial, run) && !Last(run).running && Published(p, Last(run).world, was).Some?
    ensures IsRun(p, initial, read) && |read| > |run| && run <= read && Last(read).running
    ensures WorldIs(read, |run| - 1, Last(run).world) && Last(read).issued == Last(run).issued
    ensures Last(read).world == Last(run).world
    ensures Assembled(p, Last(read).partial, Published(p, Last(run).world, was).value.environments)
  {
    var s := Last(run);
    AllChecked(p, s.world, was);
    var begun := s.(running := true, partial := map[]);
    assert Next(p, initial, s, begun);
    hide IsRun, Init, StepAt, Next, Explained, Reconciled, Published, UniqueNames, CheckTarget, Assembled;
    Extend(p, initial, run, begun);
    read := ReadEnvironments(p, initial, run + [begun], |p.environments|);
    ReadAllIsAssembled(p, s.world, was, Last(read).partial);
  }

  /**
   Any run in which no reconciliation is in flight can go on with one that sees one world from its first read to its
   decision; it issues what the reconciler issues in that world.
   */
  lemma ReconciliationIsARun(
      p: Pipeline, initial: Initial, run: seq<State>, was: PipelineStatus, io: Io)
    returns (run': seq<State>)
    requires UniqueNames(p.environments) && p.environments != [] && !p.deleting && io.publish
    requires IsRun(p, initial, run) && !Last(run).running && Published(p, Last(run).world, was).Some?
    ensures IsRun(p, initial, run') && |run'| > |run| && run <= run' && !Last(run').running
    ensures WorldIs(run', |run| - 1, Last(run).world) && Last(run').world == Last(run).world
    ensures var issued := Reconciled(p, Last(run).world, was, io).issued;
      && Last(run').issued == Last(run).issued + (if issued.Some? then {issued.value} else {})
      && (issued.Some? ==> IssuesAt(p, run', |run'| - 2, issued.value))
  {
    var read := ReadAll(p, initial, run, was);
    hide IsRun, Next, Reconciled, Published, Issues, UniqueNames, Assembled;
    var done := DecideOn(p, initial, read, was, io);
    run' := read + [done];
  }

  lemma IssuingRun(
      p: Pipeline, initial: Initial, run: seq<State>, was: PipelineStatus, io: Io, issue: Issue, w: World)
    returns (run': seq<State>)
    requires UniqueNames(p.environments) && p.environments != [] && !p.deleting && io.publish
    requires IsRun(p, initial, run) && !Last(run).running && Last(run).world == w
    requires Published(p, w, was).Some? && Reconciled(p, w, was, io).issued == Some(issue)
    ensures IsRun(p, initial, run') && |run'| > |run| && run <= run' && !Last(run').running && Last(run').world == w
    ensures WorldIs(run', |run| - 1, w) && IssuesAt(p, run', |run'| - 2, issue)
  {
    hide IsRun, Reconciled, Published, Issues, UniqueNames;
    run' := ReconciliationIsARun(p, initial, run, was, io);
  }

  /** The same promotion is issued at both steps, and the world does not change from one to the other. */
  ghost predicate IssuedTwice(p: Pipeline, run: seq<State>, m: int, n: int, issue: Issue)
    requires p.environments != []
  {
    && 0 <= m < n < |run| && (forall x :: m <= x <= n ==> run[x].world == run[m].world)
    && IssuesAt(p, run, m, issue) && IssuesAt(p, run, n, issue)
  }

  /**
   Nothing remembers a promotion that has been issued but has not landed. In any run and world in which a
   reconciliation issues one, the next reconciliation, with any stored status, may issue it again.
   */
  lemma PromotionIsRepeated(
      p: Pipeline, initial: Initial, run: seq<State>, was: PipelineStatus, was': PipelineStatus, io: Io)
    returns (run': seq<State>)
    requires UniqueNames(p.environments) && p.environments != [] && !p.deleting && io.publish
    requires IsRun(p, initial, run) && !Last(run).running && Published(p, Last(run).world, was).Some?
    requires Reconciled(p, Last(run).world, was, io).issued.Some?
    ensures IsRun(p, initial, run') && run <= run'
    ensures exists m, n :: IssuedTwice(p, run', m, n, Reconciled(p, Last(run).world, was, io).issued.value)
  {
    var w := Last(run).world;
    var issue := Reconciled(p, w, was, io).issued.value;
    IssueDependsOnWorldOnly(p, w, was, was', io);
    hide IsRun, Reconciled, Published, IssuesAt, IssuedTwice, WorldIs, UniqueNames;
    var once := IssuingRun(p, initial, run, was, io, issue, w);
    run' := IssuingRun(p, initial, once, was', io, issue, w);
    RepeatedIn(p, run, once, run', issue, w);
  }

  lemma RepeatedIn(p: Pipeline, run: seq<State>, once: seq<State>, run': seq<State>, issue: Issue, w: World)
    requires p.environments != [] && run != [] && |run| < |once| < |run'| && run <= once <= run'
    requires WorldIs(once, |run| - 1, w) && WorldIs(run', |once| - 1, w)
    requires IssuesAt(p, once, |once| - 2, issue) && IssuesAt(p, run', |run'| - 2, issue)
    ensures run <= run' && IssuedTwice(p, run', |once| - 2, |run'| - 2, issue)
  {
    hide Issues;
    var m := |once| - 2;
    assert run'[m] == once[m] && run'[m + 1] == once[m + 1];
    WorldsJoin(once, run', |run| - 1, w);
    PrefixOfPrefix(run, once, run');
  }

  lemma PrefixOfPrefix(run: seq<State>, longer: seq<State>, longest: seq<State>)
    requires run <= longer <= longest
    ensures run <= longest
  {
  }

  lemma WorldsJoin(run: seq<State>, run': seq<State>, n: nat, w: World)
    requires run != [] && run <= run' && WorldIs(run, n, w) && WorldIs(run', |run| - 1, w)
    ensures WorldIs(run', n, w)
  {
    forall x | n <= x < |run'|
      ensures run'[x].world == w
    {
      assert x < |run| ==> run'[x] == run[x];
    }
  }

  lemma IssueDependsOnWorldOnly(p: Pipeline, w: World, was: PipelineStatus, was': PipelineStatus, io: Io)
    ensures Reconciled(p, w, was, io).issued == Reconciled(p, w, was', io).issued
    ensures Published(p, w, was).Some? <==> Published(p, w, was').Some?
  {
    if Published(p, w, was).Some? {
      CollectCoversAll(p, p.environments, w);
    }
  }
}
