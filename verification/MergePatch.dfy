/** JSON merge patches (section 2 of RFC 7396) over documents whose arrays and scalars are leaves. */
module MergePatch {
  import opened Options

  datatype Doc<A> = Null | Leaf(value: A) | Obj(fields: map<string, Doc<A>>)

  /** Applies a patch to a target; null removes, objects merge, everything else replaces. */
  function Merge<A>(target: Option<Doc<A>>, patch: Doc<A>): Doc<A>
    decreases patch
  {
    if !patch.Obj? then patch
    else
      var base := if target.Some? && target.value.Obj? then target.value.fields else map[];
      Obj(map k | k in base.Keys + patch.fields.Keys && !(k in patch.fields && patch.fields[k].Null?) ::
            if k in patch.fields then Merge(if k in base then Some(base[k]) else None, patch.fields[k]) else base[k])
  }

  /** The patch from `a` to `b`; None when nothing differs. */
  function Diff<A(==)>(a: Doc<A>, b: Doc<A>): Option<Doc<A>>
    decreases b, 2
  {
    if a.Obj? && b.Obj? then
      if Changed(a, b) == map[] then None else Some(Obj(Changed(a, b)))
    else if a == b then None
    else Some(b)
  }

  function Changed<A(==)>(a: Doc<A>, b: Doc<A>): map<string, Doc<A>>
    requires a.Obj? && b.Obj?
    decreases b, 1
  {
    map k | k in a.fields.Keys + b.fields.Keys && FieldDiff(a, b, k).Some? :: FieldDiff(a, b, k).value
  }

  function FieldDiff<A(==)>(a: Doc<A>, b: Doc<A>, k: string): Option<Doc<A>>
    requires a.Obj? && b.Obj?
    decreases b, 0
  {
    if k !in b.fields then if k in a.fields then Some(Null) else None
    else if k !in a.fields then Some(b.fields[k])
    else Diff(a.fields[k], b.fields[k])
  }

  /** Sends the difference between `base` and `next` to a server that holds `current`. */
  function Patched<A(==)>(current: Doc<A>, base: Doc<A>, next: Doc<A>): Doc<A> {
    match Diff(base, next)
    case None => current
    case Some(patch) => Merge(Some(current), patch)
  }

  predicate NullFree<A(==)>(d: Doc<A>) {
    match d
    case Null => false
    case Leaf(_) => true
    case Obj(fields) => forall k | k in fields :: NullFree(fields[k])
  }

  function At<A>(d: Doc<A>, path: seq<string>): Option<Doc<A>> {
    if path == [] then Some(d)
    else if d.Obj? && path[0] in d.fields then At(d.fields[path[0]], path[1..])
    else None
  }

  /** The leaf at a path, if there is one. */
  function LeafAt<A>(d: Doc<A>, path: seq<string>): Option<A> {
    match At(d, path)
    case Some(Leaf(v)) => Some(v)
    case _ => None
  }

  lemma {:induction false} MergeIntoNothing<A(!new)>(target: Option<Doc<A>>, patch: Doc<A>)
    requires NullFree(patch) && (target.Some? ==> !target.value.Obj?)
    ensures Merge(target, patch) == patch
    decreases patch
  {
    if patch.Obj? {
      forall k | k in patch.fields
        ensures Merge(None, patch.fields[k]) == patch.fields[k]
      {
        MergeIntoNothing(None, patch.fields[k]);
      }
      assert Merge(target, patch).fields == patch.fields;
    }
  }

  /** Without concurrent changes a patch does what it says: the server ends up with `next`. */
  lemma {:induction false} PatchReachesNext<A(!new)>(base: Doc<A>, next: Doc<A>)
    requires NullFree(next)
    ensures Patched(base, base, next) == next
    decreases next
  {
    if base.Obj? && next.Obj? {
      forall k | k in next.fields && k in base.fields
        ensures Patched(base.fields[k], base.fields[k], next.fields[k]) == next.fields[k]
      {
        PatchReachesNext(base.fields[k], next.fields[k]);
      }
      forall k | k in next.fields
        ensures Merge(None, next.fields[k]) == next.fields[k]
      {
        MergeIntoNothing(None, next.fields[k]);
      }
      forall k: string
        ensures k in Patched(base, base, next).fields <==> k in next.fields
        ensures k in next.fields ==> Patched(base, base, next).fields[k] == next.fields[k]
      {
        FieldReachesNext(base, next, k);
      }
      assert Patched(base, base, next).fields == next.fields;
    } else if base != next && next.Obj? {
      MergeIntoNothing(Some(base), next);
    }
  }

  lemma FieldReachesNext<A(!new)>(base: Doc<A>, next: Doc<A>, k: string)
    requires base.Obj? && next.Obj? && NullFree(next)
    requires k in next.fields && k in base.fields ==>
      Patched(base.fields[k], base.fields[k], next.fields[k]) == next.fields[k]
    requires k in next.fields ==> Merge(None, next.fields[k]) == next.fields[k]
    ensures Patched(base, base, next).Obj?
    ensures k in Patched(base, base, next).fields <==> k in next.fields
    ensures k in next.fields ==> Patched(base, base, next).fields[k] == next.fields[k]
  {
    DiffIsNotNull(base, next, k);
    ChangedHasField(base, next, k);
    MergedField(base, Obj(Changed(base, next)), k);
  }

  lemma MergedField<A(!new)>(base: Doc<A>, patch: Doc<A>, k: string)
    requires base.Obj? && patch.Obj?
    ensures var m := Merge(Some(base), patch);
      && m.Obj?
      && (k in m.fields <==> (k in base.fields || k in patch.fields) && !(k in patch.fields && patch.fields[k].Null?))
      && (k in m.fields && k !in patch.fields ==> m.fields[k] == base.fields[k])
      && (k in m.fields && k in patch.fields ==>
            m.fields[k] == Merge(if k in base.fields then Some(base.fields[k]) else None, patch.fields[k]))
  {
  }

  /** A patch removes a field only if `next` lacks it. */
  lemma DiffIsNotNull<A(!new)>(base: Doc<A>, next: Doc<A>, k: string)
    requires base.Obj? && next.Obj? && NullFree(next)
    ensures FieldDiff(base, next, k) == Some(Null) ==> k !in next.fields
    ensures Diff(base, next).None? ==> FieldDiff(base, next, k).None?
  {
    ChangedHasField(base, next, k);
    assert k in next.fields ==> NullFree(next.fields[k]);
  }

  lemma ChangedHasField<A(!new)>(base: Doc<A>, next: Doc<A>, k: string)
    requires base.Obj? && next.Obj?
    ensures k in Changed(base, next) <==> FieldDiff(base, next, k).Some?
    ensures FieldDiff(base, next, k).Some? ==> Diff(base, next) == Some(Obj(Changed(base, next)))
    ensures FieldDiff(base, next, k).Some? ==> Changed(base, next)[k] == FieldDiff(base, next, k).value
  {
    assert FieldDiff(base, next, k).Some? ==> k in base.fields.Keys + next.fields.Keys;
  }

  // == Where the leaves of a patched document come from ==

  lemma {:induction false} MergedLeafComesFrom<A(!new)>(target: Option<Doc<A>>, patch: Doc<A>, path: seq<string>)
    requires LeafAt(Merge(target, patch), path).Some?
    ensures var leaf := LeafAt(Merge(target, patch), path);
      (target.Some? && LeafAt(target.value, path) == leaf) || LeafAt(patch, path) == leaf
    decreases path
  {
    if patch.Obj? && path != [] && path[0] in patch.fields {
      var base := if target.Some? && target.value.Obj? then target.value.fields else map[];
      var inner := if path[0] in base then Some(base[path[0]]) else None;
      assert Merge(target, patch).fields[path[0]] == Merge(inner, patch.fields[path[0]]);
      MergedLeafComesFrom(inner, patch.fields[path[0]], path[1..]);
    }
  }

  lemma {:induction false} DiffLeafComesFrom<A(!new)>(base: Doc<A>, next: Doc<A>, path: seq<string>)
    requires Diff(base, next).Some? && LeafAt(Diff(base, next).value, path).Some?
    ensures LeafAt(next, path) == LeafAt(Diff(base, next).value, path)
    decreases path
  {
    if base.Obj? && next.Obj? && path != [] {
      var k := path[0];
      ChangedHasField(base, next, k);
      assert At(Diff(base, next).value, path) == At(Changed(base, next)[k], path[1..]);
      if k in next.fields && k in base.fields {
        DiffLeafComesFrom(base.fields[k], next.fields[k], path[1..]);
      }
    }
  }

  /** Every leaf after a patch is a leaf of the server's document, or of the one the patch was computed for. */
  lemma PatchedLeafComesFrom<A(!new)>(current: Doc<A>, base: Doc<A>, next: Doc<A>, path: seq<string>)
    requires LeafAt(Patched(current, base, next), path).Some?
    ensures LeafAt(Patched(current, base, next), path) == LeafAt(current, path)
         || LeafAt(Patched(current, base, next), path) == LeafAt(next, path)
  {
    if Diff(base, next).Some? {
      MergedLeafComesFrom(Some(current), Diff(base, next).value, path);
      if LeafAt(Patched(current, base, next), path) == LeafAt(Diff(base, next).value, path) {
        DiffLeafComesFrom(base, next, path);
      }
    }
  }

  /** Where base and next have a leaf and agree, the server's leaf survives; where they differ, next wins. */
  lemma {:induction false} PatchedLeaf<A(!new)>(current: Doc<A>, base: Doc<A>, next: Doc<A>, path: seq<string>)
    requires LeafAt(current, path).Some? && LeafAt(base, path).Some? && LeafAt(next, path).Some?
    ensures LeafAt(Patched(current, base, next), path)
         == if LeafAt(base, path) == LeafAt(next, path) then LeafAt(current, path) else LeafAt(next, path)
    decreases path
  {
    if path != [] {
      var k := path[0];
      PatchedLeaf(current.fields[k], base.fields[k], next.fields[k], path[1..]);
      FieldPatched(current, base, next, k);
    }
  }

  lemma FieldPatched<A(!new)>(current: Doc<A>, base: Doc<A>, next: Doc<A>, k: string)
    requires current.Obj? && base.Obj? && next.Obj? && k in current.fields && k in base.fields && k in next.fields
    requires !next.fields[k].Null?
    ensures Patched(current, base, next).Obj? && k in Patched(current, base, next).fields
    ensures Patched(current, base, next).fields[k] == Patched(current.fields[k], base.fields[k], next.fields[k])
  {
    ChangedHasField(base, next, k);
    MergedField(current, Obj(Changed(base, next)), k);
    if FieldDiff(base, next, k).Some? {
      DiffOfNonNull(base.fields[k], next.fields[k]);
    }
  }

  lemma DiffOfNonNull<A(!new)>(a: Doc<A>, b: Doc<A>)
    requires !b.Null?
    ensures Diff(a, b) != Some(Null)
  {
  }

  // == A patch, field by field ==

  function Field<A>(d: Option<Doc<A>>, k: string): Option<Doc<A>> {
    if d.Some? && d.value.Obj? && k in d.value.fields then Some(d.value.fields[k]) else None
  }

  /** `Patched` on a document that may be missing on the server. */
  function Updated<A(==)>(current: Option<Doc<A>>, base: Doc<A>, next: Doc<A>): Option<Doc<A>> {
    match Diff(base, next)
    case None => current
    case Some(patch) => Some(Merge(current, patch))
  }

  /** Merging an object without nulls: its fields are merged, the others stay. */
  lemma FieldMerged<A(!new)>(current: Option<Doc<A>>, patch: Doc<A>, k: string)
    requires patch.Obj? && NullFree(patch)
    ensures Field(Some(Merge(current, patch)), k)
         == if k in patch.fields then Some(Merge(Field(current, k), patch.fields[k])) else Field(current, k)
  {
    assert k in patch.fields ==> NullFree(patch.fields[k]);
  }

  /** What a patch does to one field, whether or not the three documents have it. */
  lemma FieldUpdated<A(!new)>(current: Option<Doc<A>>, base: Doc<A>, next: Doc<A>, k: string)
    requires base.Obj? && next.Obj? && NullFree(next)
    ensures Field(Updated(current, base, next), k)
         == if k !in next.fields then if k in base.fields then None else Field(current, k)
            else if k !in base.fields then Some(Merge(Field(current, k), next.fields[k]))
            else Updated(Field(current, k), base.fields[k], next.fields[k])
  {
    ChangedHasField(base, next, k);
    if k in next.fields {
      assert NullFree(next.fields[k]);
      if k in base.fields {
        DiffOfNonNull(base.fields[k], next.fields[k]);
      }
    }
  }
}
