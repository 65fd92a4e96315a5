/** The waiting approvals of a decoded pipeline status: a map from environment names to entries on the heap. */
module ApprovalMap {
  import opened Options
  import opened Api

  class Entry {
    var waiting: string
    var targets: seq<TargetStatus>

    constructor (waiting: string)
      ensures this.waiting == waiting && targets == []
    {
      this.waiting, targets := waiting, [];
    }
  }

  /** `environments` is None while the map is nil. */
  class Status {
    var environments: Option<map<string, Entry>>

    constructor ()
      ensures environments == None
    {
      environments := None;
    }

    ghost function Map(): map<string, Entry>
      reads this
    {
      if environments.Some? then environments.value else map[]
    }

    ghost function Entries(): set<Entry>
      reads this
    {
      set env | env in Map() :: Map()[env]
    }

    /** No two names share an entry, as after decoding. */
    ghost predicate Valid()
      reads this
    {
      forall env, env' | env in Map() && env' in Map() && env != env' :: Map()[env] != Map()[env']
    }

    /** The map as values. */
    ghost function View(): map<string, EnvironmentStatus>
      reads this, Entries()
    {
      map env | env in Map() :: EnvironmentStatus(Map()[env].waiting, Map()[env].targets)
    }

    method GetWaitingApproval(env: string) returns (revision: string)
      ensures revision == Api.GetWaitingApproval(View(), env)
    {
      if environments.None? || env !in environments.value {
        return "";
      }
      return environments.value[env].waiting;
    }

    method SetWaiting(env: string, revision: string)
      requires Valid()
      modifies this, Entries()
      ensures Valid() && fresh(Entries() - old(Entries()))
      ensures View() == Api.SetWaitingApproval(old(View()), env, revision)
    {
      ghost var was := View();
      if environments.None? {
        environments := Some(map[]);
      }
      if env !in environments.value {
        var entry := new Entry(revision);
        environments := Some(environments.value[env := entry]);
      } else {
        var entry := environments.value[env];
        entry.waiting := revision;
      }
      assert View().Keys == was.Keys + {env};
    }

    method SetWaitingApproval(env: string, revision: string)
      requires Valid()
      modifies this, Entries()
      ensures Valid() && fresh(Entries() - old(Entries()))
      ensures View() == Api.SetWaitingApproval(old(View()), env, revision)
    {
      SetWaiting(env, revision);
    }

    method ResetWaitingApproval(env: string)
      requires Valid()
      modifies this, Entries()
      ensures Valid() && fresh(Entries() - old(Entries()))
      ensures View() == Api.SetWaitingApproval(old(View()), env, "")
    {
      SetWaiting(env, "");
    }

    /** Any sequence of calls; a reset is a call with the empty revision. */
    method RunCalls(calls: seq<(string, string)>)
      requires Valid()
      modifies this, Entries()
      ensures Valid() && View() == AfterCalls(old(View()), calls)
    {
      for i := 0 to |calls|
        invariant Valid() && fresh(Entries() - old(Entries()))
        invariant View() == AfterCalls(old(View()), calls[..i])
      {
        assert calls[..i + 1][..i] == calls[..i];
        if calls[i].1 == "" {
          ResetWaitingApproval(calls[i].0);
        } else {
          SetWaitingApproval(calls[i].0, calls[i].1);
        }
      }
      assert calls[..|calls|] == calls;
    }
  }

  /** The map after calls that set the waiting revision of an environment, in order. */
  function AfterCalls(envs: map<string, EnvironmentStatus>, calls: seq<(string, string)>)
    : map<string, EnvironmentStatus>
  {
    if calls == [] then envs
    else
      var last := calls[|calls| - 1];
      Api.SetWaitingApproval(AfterCalls(envs, calls[..|calls| - 1]), last.0, last.1)
  }

  /** Call `i` is the last one for the environment. */
  predicate IsLastCall(calls: seq<(string, string)>, i: int, env: string) {
    0 <= i < |calls| && calls[i].0 == env && forall j | i < j < |calls| :: calls[j].0 != env
  }

  /** What waits is what the last call for the environment set. */
  lemma {:induction false} LastCallWins(
      envs: map<string, EnvironmentStatus>, calls: seq<(string, string)>, env: string, i: int)
    requires IsLastCall(calls, i, env)
    ensures Api.GetWaitingApproval(AfterCalls(envs, calls), env) == calls[i].1
  {
    var n := |calls| - 1;
    if i < n {
      assert calls[n].0 != env;
      assert IsLastCall(calls[..n], i, env);
      LastCallWins(envs, calls[..n], env, i);
    }
  }

  /** An environment that no call names keeps its entry. */
  lemma {:induction false} OtherEnvironmentsStay(
      envs: map<string, EnvironmentStatus>, calls: seq<(string, string)>, env: string)
    requires forall i | 0 <= i < |calls| :: calls[i].0 != env
    ensures env in AfterCalls(envs, calls) <==> env in envs
    ensures env in envs ==> AfterCalls(envs, calls)[env] == envs[env]
  {
    if calls != [] {
      OtherEnvironmentsStay(envs, calls[..|calls| - 1], env);
      assert calls[|calls| - 1].0 != env;
    }
  }

  /** No call changes the targets of any environment. */
  lemma {:induction false} TargetsStay(envs: map<string, EnvironmentStatus>, calls: seq<(string, string)>, env: string)
    requires env in AfterCalls(envs, calls)
    ensures AfterCalls(envs, calls)[env].targets == if env in envs then envs[env].targets else []
    ensures calls == [] ==> env in envs
  {
    if calls != [] {
      var rest := calls[..|calls| - 1];
      if env in AfterCalls(envs, rest) {
        TargetsStay(envs, rest, env);
      } else {
        NamesStay(envs, rest, env);
      }
    }
  }

  lemma {:induction false} NamesStay(envs: map<string, EnvironmentStatus>, calls: seq<(string, string)>, env: string)
    ensures env in envs ==> env in AfterCalls(envs, calls)
  {
    if calls != [] {
      NamesStay(envs, calls[..|calls| - 1], env);
    }
  }
}
