/** Status conditions: the two readiness scans and the set and remove operations on a condition list. */
module Conditions {
  import opened Options
  import opened Unstructured

  const READY := "Ready"
  const PROMOTION_PENDING := "PromotionPending"
  const TRUE := "True"
  const FALSE := "False"

  datatype Condition = Condition(kind: string, status: string, reason: string, message: string)

  /** The typed scan: the first Ready entry decides. */
  predicate IsReady(cs: seq<Condition>) {
    if cs == [] then false
    else if cs[0].kind == READY then cs[0].status == TRUE
    else IsReady(cs[1..])
  }

  /** The untyped scan over the `status.conditions` of an arbitrary object. */
  predicate IsReadyUnstructured(vs: seq<Value>) {
    if vs == [] then false
    else if vs[0].Obj? && NestedString(vs[0], ["type"]) == Some(READY) then
      NestedString(vs[0], ["status"]) == Some(TRUE)
    else IsReadyUnstructured(vs[1..])
  }

  ghost predicate FirstReadyIsTrue(cs: seq<Condition>) {
    exists i :: 0 <= i < |cs| && cs[i].kind == READY && cs[i].status == TRUE
             && forall j :: 0 <= j < i ==> cs[j].kind != READY
  }

  lemma {:induction false} IsReadyMeansFirstReadyIsTrue(cs: seq<Condition>)
    ensures IsReady(cs) <==> FirstReadyIsTrue(cs)
  {
    if cs != [] && cs[0].kind != READY {
      IsReadyMeansFirstReadyIsTrue(cs[1..]);
      if IsReady(cs[1..]) {
        var i :| 0 <= i < |cs[1..]| && cs[1..][i].kind == READY && cs[1..][i].status == TRUE
              && forall j :: 0 <= j < i ==> cs[1..][j].kind != READY;
        assert cs[i + 1].kind == READY;
        assert forall j :: 0 < j < i + 1 ==> cs[j] == cs[1..][j - 1];
      }
      if FirstReadyIsTrue(cs) {
        var i :| 0 <= i < |cs| && cs[i].kind == READY && cs[i].status == TRUE
              && forall j :: 0 <= j < i ==> cs[j].kind != READY;
        assert cs[1..][i - 1].kind == READY;
      }
    } else if cs != [] && IsReady(cs) {
      assert cs[0].kind == READY;
    }
  }

  ghost predicate FirstUntypedReadyIsTrue(vs: seq<Value>) {
    exists i :: 0 <= i < |vs|
             && NestedString(vs[i], ["type"]) == Some(READY) && NestedString(vs[i], ["status"]) == Some(TRUE)
             && forall j :: 0 <= j < i ==> NestedString(vs[j], ["type"]) != Some(READY)
  }

  lemma {:induction false} UntypedScanMeansFirstReadyIsTrue(vs: seq<Value>)
    ensures IsReadyUnstructured(vs) <==> FirstUntypedReadyIsTrue(vs)
  {
    if vs != [] && NestedString(vs[0], ["type"]) != Some(READY) {
      var rest := vs[1..];
      UntypedScanMeansFirstReadyIsTrue(rest);
      if IsReadyUnstructured(rest) {
        var i :| 0 <= i < |rest| && NestedString(rest[i], ["type"]) == Some(READY)
              && NestedString(rest[i], ["status"]) == Some(TRUE)
              && forall j :: 0 <= j < i ==> NestedString(rest[j], ["type"]) != Some(READY);
        assert vs[i + 1] == rest[i];
        assert forall j :: 0 < j < i + 1 ==> vs[j] == rest[j - 1];
      }
      if FirstUntypedReadyIsTrue(vs) {
        var i :| 0 <= i < |vs| && NestedString(vs[i], ["type"]) == Some(READY)
              && NestedString(vs[i], ["status"]) == Some(TRUE)
              && forall j :: 0 <= j < i ==> NestedString(vs[j], ["type"]) != Some(READY);
        assert rest[i - 1] == vs[i];
        assert forall j :: 0 <= j < i - 1 ==> rest[j] == vs[j + 1];
      }
    } else if vs != [] && IsReadyUnstructured(vs) {
      assert NestedString(vs[0], ["type"]) == Some(READY);
    }
  }

  /** An entry the untyped scan cannot take for a condition: its type is missing or not a string. */
  predicate Junk(v: Value) {
    NestedString(v, ["type"]) == None
  }

  function Relevant(vs: seq<Value>): (r: seq<Value>)
    ensures |r| <= |vs|
  {
    if vs == [] then []
    else if Junk(vs[0]) then Relevant(vs[1..])
    else [vs[0]] + Relevant(vs[1..])
  }

  /** `v` is what encoding the typed condition `c` gives, whatever further fields it carries. */
  predicate Encodes(v: Value, c: Condition) {
    && NestedString(v, ["type"]) == Some(c.kind)
    && NestedString(v, ["status"]) == Some(c.status)
  }

  ghost predicate EncodesAll(vs: seq<Value>, cs: seq<Condition>) {
    |vs| == |cs| && forall i :: 0 <= i < |cs| ==> Encodes(vs[i], cs[i])
  }

  /** Both scans agree on every encoded list, with junk entries anywhere in it. */
  lemma {:induction false} UntypedScanMatchesTyped(vs: seq<Value>, cs: seq<Condition>)
    requires EncodesAll(Relevant(vs), cs)
    ensures IsReadyUnstructured(vs) == IsReady(cs)
  {
    if vs != [] {
      if Junk(vs[0]) {
        UntypedScanMatchesTyped(vs[1..], cs);
      } else {
        var rest := Relevant(vs[1..]);
        assert Relevant(vs)[1..] == rest;
        assert Encodes(Relevant(vs)[0], cs[0]);
        assert forall i :: 0 <= i < |rest| ==> rest[i] == Relevant(vs)[i + 1];
        UntypedScanMatchesTyped(vs[1..], cs[1..]);
      }
    }
  }

  lemma {:induction false} JunkAnywhereIsIgnored(before: seq<Value>, junk: Value, after: seq<Value>)
    requires Junk(junk)
    ensures IsReadyUnstructured(before + [junk] + after) == IsReadyUnstructured(before + after)
  {
    if before == [] {
      assert ([junk] + after)[1..] == after;
      assert before + [junk] + after == [junk] + after && before + after == after;
    } else {
      assert (before + [junk] + after)[1..] == before[1..] + [junk] + after;
      assert (before + after)[1..] == before[1..] + after;
      JunkAnywhereIsIgnored(before[1..], junk, after);
    }
  }

  // == Setting and removing a condition (apimachinery semantics) ==

  function SetCondition(cs: seq<Condition>, c: Condition): seq<Condition> {
    if cs == [] then [c]
    else if cs[0].kind == c.kind then [c] + cs[1..]
    else [cs[0]] + SetCondition(cs[1..], c)
  }

  function RemoveCondition(cs: seq<Condition>, kind: string): seq<Condition> {
    if cs == [] then []
    else if cs[0].kind == kind then RemoveCondition(cs[1..], kind)
    else [cs[0]] + RemoveCondition(cs[1..], kind)
  }

  function FindCondition(cs: seq<Condition>, kind: string): Option<Condition> {
    if cs == [] then None
    else if cs[0].kind == kind then Some(cs[0])
    else FindCondition(cs[1..], kind)
  }

  lemma {:induction false} SetThenFind(cs: seq<Condition>, c: Condition, kind: string)
    ensures FindCondition(SetCondition(cs, c), kind) == if kind == c.kind then Some(c) else FindCondition(cs, kind)
  {
    if cs != [] && cs[0].kind != c.kind {
      assert SetCondition(cs, c)[1..] == SetCondition(cs[1..], c);
      SetThenFind(cs[1..], c, kind);
    } else if cs != [] {
      assert SetCondition(cs, c)[1..] == cs[1..];
    }
  }

  lemma {:induction false} RemoveThenFind(cs: seq<Condition>, removed: string, kind: string)
    ensures FindCondition(RemoveCondition(cs, removed), kind)
         == if kind == removed then None else FindCondition(cs, kind)
  {
    if cs != [] {
      RemoveThenFind(cs[1..], removed, kind);
      if cs[0].kind != removed {
        assert RemoveCondition(cs, removed)[1..] == RemoveCondition(cs[1..], removed);
      }
    }
  }

  function Kinds(cs: seq<Condition>): seq<string> {
    seq(|cs|, i requires 0 <= i < |cs| => cs[i].kind)
  }

  /** Setting a condition keeps the order of the others; a new one goes to the end. */
  lemma {:induction false} SetKeepsOrder(cs: seq<Condition>, c: Condition)
    ensures Kinds(SetCondition(cs, c)) == if c.kind in Kinds(cs) then Kinds(cs) else Kinds(cs) + [c.kind]
  {
    if cs == [] {
    } else if cs[0].kind == c.kind {
      assert Kinds(cs)[0] == c.kind;
      assert Kinds([c] + cs[1..]) == Kinds(cs);
    } else {
      SetKeepsOrder(cs[1..], c);
      assert Kinds(cs) == [cs[0].kind] + Kinds(cs[1..]);
      assert Kinds(SetCondition(cs, c)) == [cs[0].kind] + Kinds(SetCondition(cs[1..], c));
    }
  }
}
