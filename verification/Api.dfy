/** The Pipeline resource: its specification, its status, and the lookups defined on them. */
module Api {
  import opened Options
  import opened Conditions

  datatype ObjectKey = ObjectKey(ns: string, name: string)
  datatype Gvk = Gvk(group: string, version: string, kind: string)

  // == Specification ==

  datatype ClusterRef = ClusterRef(kind: string, name: string, ns: string) {
    function Describe(): string {
      if ns != "" then kind + "/" + ns + "/" + name else kind + "/" + name
    }
  }

  /** Kind, namespace if there is one, and name, in this order. */
  lemma DescriptionReadsBack(ref: ClusterRef)
    requires '/' !in ref.kind && '/' !in ref.ns && '/' !in ref.name
    ensures SplitAt(ref.Describe(), '/').Some? && SplitAt(ref.Describe(), '/').value.0 == ref.kind
    ensures var rest := SplitAt(ref.Describe(), '/').value.1;
      SplitAt(rest, '/') == if ref.ns == "" then None else Some((ref.ns, ref.name))
    ensures ref.ns == "" ==> SplitAt(ref.Describe(), '/').value.1 == ref.name
  {
    if ref.ns != "" {
      assert ref.Describe() == ref.kind + "/" + (ref.ns + "/" + ref.name);
      SplitAtFirst(ref.kind, '/', ref.ns + "/" + ref.name);
      SplitAtFirst(ref.ns, '/', ref.name);
    } else {
      SplitAtFirst(ref.kind, '/', ref.name);
      SplitsOnlyAt(ref.name, '/');
    }
  }

  datatype Target = Target(ns: string, clusterRef: Option<ClusterRef>)
  datatype Strategy = PullRequest(url: string) | Notification | NoStrategy
  datatype Promotion = Promotion(manual: bool, strategy: Strategy)
  datatype Environment = Environment(name: string, targets: seq<Target>, promotion: Option<Promotion>)
  datatype AppRef = AppRef(apiVersion: string, kind: string, name: string)

  datatype Pipeline = Pipeline(
    key: ObjectKey,
    generation: int,
    deleting: bool,
    appRef: AppRef,
    environments: seq<Environment>,
    promotion: Option<Promotion>)

  /** Names that resolve to one environment each; statuses are keyed by name. */
  predicate UniqueNames(envs: seq<Environment>) {
    forall i, j :: 0 <= i < j < |envs| ==> envs[i].name != envs[j].name
  }

  /** The promotion of the environment if it has one, otherwise the default of the pipeline. */
  function GetPromotion(p: Pipeline, env: string): Option<Promotion> {
    FirstPromotion(p.environments, env, p.promotion)
  }

  function FirstPromotion(envs: seq<Environment>, env: string, default: Option<Promotion>): Option<Promotion> {
    if envs == [] then default
    else if envs[0].name == env && envs[0].promotion.Some? then envs[0].promotion
    else FirstPromotion(envs[1..], env, default)
  }

  lemma {:induction false} GetPromotionIsOwnElseDefault(envs: seq<Environment>, k: nat, default: Option<Promotion>)
    requires UniqueNames(envs) && k < |envs|
    ensures FirstPromotion(envs, envs[k].name, default)
         == if envs[k].promotion.Some? then envs[k].promotion else default
  {
    if k == 0 {
      NoOtherPromotion(envs[1..], envs[0].name, default);
    } else {
      assert envs[0].name != envs[k].name;
      GetPromotionIsOwnElseDefault(envs[1..], k - 1, default);
    }
  }

  lemma {:induction false} NoOtherPromotion(envs: seq<Environment>, env: string, default: Option<Promotion>)
    requires forall i :: 0 <= i < |envs| ==> envs[i].name != env
    ensures FirstPromotion(envs, env, default) == default
  {
    if envs != [] {
      assert envs[0].name != env;
      NoOtherPromotion(envs[1..], env, default);
    }
  }

  /** Splits an API version into group and version; more than one slash is an error. */
  function ParseGroupVersion(s: string): Option<(string, string)> {
    if s == "" || s == "/" then Some(("", ""))
    else match SplitAt(s, '/')
      case None => Some(("", s))
      case Some((group, version)) => if '/' in version then None else Some((group, version))
  }

  /** A version without a group, a group with a version, and nothing else. */
  lemma GroupVersionReads(group: string, version: string, more: string)
    requires '/' !in group && '/' !in version
    ensures group != "" || version != "" ==> ParseGroupVersion(group + "/" + version) == Some((group, version))
    ensures ParseGroupVersion(version) == Some(("", version))
    ensures group != "" || version != "" || more != "" ==>
      ParseGroupVersion(group + "/" + version + "/" + more).None?
  {
    SplitAtFirst(group, '/', version);
    assert group + "/" + version + "/" + more == group + "/" + (version + "/" + more);
    SplitAtFirst(group, '/', version + "/" + more);
    assert (version + "/" + more)[|version|] == '/';
    SplitsOnlyAt(version, '/');
    var all := group + "/" + version;
    assert all[|group|] == '/';
    if all == "/" {
      assert |all| == |group| + 1 + |version|;
    }
    assert |group + "/" + version + "/" + more| == |group| + |version| + |more| + 2;
  }

  lemma {:induction false} SplitsOnlyAt(s: string, c: char)
    requires c !in s
    ensures SplitAt(s, c).None?
  {
    if s != [] {
      SplitsOnlyAt(s[1..], c);
    }
  }

  /** The parts before and after the first occurrence of `c`. */
  function SplitAt(s: string, c: char): Option<(string, string)> {
    if s == [] then None
    else if s[0] == c then Some(("", s[1..]))
    else match SplitAt(s[1..], c)
      case None => None
      case Some((before, after)) => Some(([s[0]] + before, after))
  }

  lemma {:induction false} SplitAtFirst(before: string, c: char, after: string)
    requires c !in before
    ensures SplitAt(before + [c] + after, c) == Some((before, after))
  {
    var s := before + [c] + after;
    if before == [] {
      assert s[1..] == after;
    } else {
      assert s[1..] == before[1..] + [c] + after;
      assert s[0] == before[0] && [before[0]] + before[1..] == before;
      SplitAtFirst(before[1..], c, after);
    }
  }

  /** The type of the application, if its API version can be parsed. */
  function AppGvk(app: AppRef): Option<Gvk> {
    match ParseGroupVersion(app.apiVersion)
    case None => None
    case Some((group, version)) => Some(Gvk(group, version, app.kind))
  }

  // == Status ==

  datatype TargetStatus = TargetStatus(
    appRef: AppRef, clusterRef: Option<ClusterRef>, ready: bool, revision: string, error: string)

  datatype EnvironmentStatus = EnvironmentStatus(waiting: string, targets: seq<TargetStatus>)

  datatype PipelineStatus = PipelineStatus(
    observedGeneration: int,
    conditions: seq<Condition>,
    environments: map<string, EnvironmentStatus>)

  /** The revision waiting for approval in an environment; empty when nothing waits. */
  function GetWaitingApproval(envs: map<string, EnvironmentStatus>, env: string): string {
    if env in envs then envs[env].waiting else ""
  }

  function SetWaitingApproval(envs: map<string, EnvironmentStatus>, env: string, revision: string)
    : map<string, EnvironmentStatus>
  {
    envs[env := EnvironmentStatus(revision, if env in envs then envs[env].targets else [])]
  }
}
