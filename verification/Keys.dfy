/** The strings under which pipelines are indexed, and how they read back. */
module Keys {
  import opened Options
  import opened Api

  /** The key of one target cache: a cluster (both parts empty for the local one) and an object type. */
  datatype CacheKey = CacheKey(cluster: ObjectKey, gvk: Gvk)

  const LOCAL := ObjectKey("", "")

  function ObjectKeyString(k: ObjectKey): string {
    k.ns + "/" + k.name
  }

  function GvkString(g: Gvk): string {
    g.group + "/" + g.version + ", Kind=" + g.kind
  }

  function CacheKeyString(k: CacheKey): string {
    ObjectKeyString(k.cluster) + ":" + GvkString(k.gvk)
  }

  function TargetIndexKey(cluster: ObjectKey, gvk: Gvk, target: ObjectKey): string {
    ObjectKeyString(cluster) + ":" + GvkString(gvk) + ":" + ObjectKeyString(target)
  }

  function ClusterCacheKey(cluster: ObjectKey, gvk: Gvk, target: ObjectKey): string {
    CacheKeyString(CacheKey(cluster, gvk))
  }

  // == Reading the keys back ==

  predicate ValidName(s: string) {
    ':' !in s && '/' !in s
  }

  predicate ValidObjectKey(k: ObjectKey) {
    ValidName(k.ns) && ValidName(k.name)
  }

  predicate ValidGvk(g: Gvk) {
    ValidName(g.group) && ValidName(g.version) && ',' !in g.version && ':' !in g.kind
  }

  function ParseObjectKey(s: string): Option<ObjectKey> {
    match SplitAt(s, '/')
    case None => None
    case Some((ns, name)) => Some(ObjectKey(ns, name))
  }

  const KIND_PREFIX := " Kind="

  function ParseGvk(s: string): Option<Gvk> {
    match SplitAt(s, '/')
    case None => None
    case Some((group, rest)) =>
      match SplitAt(rest, ',')
      case None => None
      case Some((version, tail)) =>
        if KIND_PREFIX <= tail then Some(Gvk(group, version, tail[|KIND_PREFIX|..])) else None
  }

  function ParseCacheKey(s: string): Option<CacheKey> {
    match SplitAt(s, ':')
    case None => None
    case Some((cluster, gvk)) =>
      match (ParseObjectKey(cluster), ParseGvk(gvk))
      case (Some(c), Some(g)) => Some(CacheKey(c, g))
      case _ => None
  }

  function ParseTargetIndexKey(s: string): Option<(CacheKey, ObjectKey)> {
    match SplitAt(s, ':')
    case None => None
    case Some((cluster, rest)) =>
      match SplitAt(rest, ':')
      case None => None
      case Some((gvk, target)) =>
        match (ParseObjectKey(cluster), ParseGvk(gvk), ParseObjectKey(target))
        case (Some(c), Some(g), Some(t)) => Some((CacheKey(c, g), t))
        case _ => None
  }

  lemma ObjectKeyReadsBack(k: ObjectKey)
    requires ValidObjectKey(k)
    ensures ParseObjectKey(ObjectKeyString(k)) == Some(k)
    ensures ':' !in ObjectKeyString(k)
  {
    SplitAtFirst(k.ns, '/', k.name);
  }

  lemma GvkReadsBack(g: Gvk)
    requires ValidGvk(g)
    ensures ParseGvk(GvkString(g)) == Some(g)
    ensures ':' !in GvkString(g)
  {
    var tail := KIND_PREFIX + g.kind;
    var rest := g.version + "," + tail;
    assert GvkString(g) == g.group + "/" + rest;
    SplitAtFirst(g.group, '/', rest);
    SplitAtFirst(g.version, ',', tail);
    assert tail[|KIND_PREFIX|..] == g.kind;
  }

  lemma CacheKeyReadsBack(k: CacheKey)
    requires ValidObjectKey(k.cluster) && ValidGvk(k.gvk)
    ensures ParseCacheKey(CacheKeyString(k)) == Some(k)
  {
    ObjectKeyReadsBack(k.cluster);
    GvkReadsBack(k.gvk);
    SplitAtFirst(ObjectKeyString(k.cluster), ':', GvkString(k.gvk));
  }

  lemma TargetIndexKeyReadsBack(cluster: ObjectKey, gvk: Gvk, target: ObjectKey)
    requires ValidObjectKey(cluster) && ValidGvk(gvk) && ValidObjectKey(target)
    ensures ParseTargetIndexKey(TargetIndexKey(cluster, gvk, target)) == Some((CacheKey(cluster, gvk), target))
  {
    ObjectKeyReadsBack(cluster);
    GvkReadsBack(gvk);
    ObjectKeyReadsBack(target);
    var rest := GvkString(gvk) + ":" + ObjectKeyString(target);
    assert TargetIndexKey(cluster, gvk, target) == ObjectKeyString(cluster) + ":" + rest;
    SplitAtFirst(ObjectKeyString(cluster), ':', rest);
    SplitAtFirst(GvkString(gvk), ':', ObjectKeyString(target));
  }

  lemma CacheKeyInjective(k: CacheKey, k': CacheKey)
    requires ValidObjectKey(k.cluster) && ValidGvk(k.gvk) && ValidObjectKey(k'.cluster) && ValidGvk(k'.gvk)
    ensures CacheKeyString(k) == CacheKeyString(k') <==> k == k'
  {
    CacheKeyReadsBack(k);
    CacheKeyReadsBack(k');
  }

  lemma TargetIndexKeyInjective(c: ObjectKey, g: Gvk, t: ObjectKey, c': ObjectKey, g': Gvk, t': ObjectKey)
    requires ValidObjectKey(c) && ValidGvk(g) && ValidObjectKey(t)
    requires ValidObjectKey(c') && ValidGvk(g') && ValidObjectKey(t')
    ensures TargetIndexKey(c, g, t) == TargetIndexKey(c', g', t') <==> c == c' && g == g' && t == t'
  {
    TargetIndexKeyReadsBack(c, g, t);
    TargetIndexKeyReadsBack(c', g', t');
  }

  /** A remote cluster has a name, so neither of its keys is ever a key of the local cluster. */
  lemma LocalNeverCollidesWithRemote(remote: ObjectKey, g: Gvk, t: ObjectKey, g': Gvk, t': ObjectKey)
    requires ValidObjectKey(remote) && remote.name != ""
    requires ValidGvk(g) && ValidObjectKey(t) && ValidGvk(g') && ValidObjectKey(t')
    ensures CacheKeyString(CacheKey(LOCAL, g)) != CacheKeyString(CacheKey(remote, g'))
    ensures TargetIndexKey(LOCAL, g, t) != TargetIndexKey(remote, g', t')
  {
    CacheKeyInjective(CacheKey(LOCAL, g), CacheKey(remote, g'));
    TargetIndexKeyInjective(LOCAL, g, t, remote, g', t');
  }

  /** The hypothesis is needed: with colons in a kind and a name, two different targets share a key. */
  lemma ColonsCollide()
    ensures TargetIndexKey(ObjectKey("n", "c"), Gvk("g", "v", "K:n/x"), ObjectKey("m", "a"))
         == TargetIndexKey(ObjectKey("n", "c"), Gvk("g", "v", "K"), ObjectKey("n", "x:m/a"))
  {
    var left := "n/c:g/v, Kind=K" + ":n/x" + ":m/a";
    assert TargetIndexKey(ObjectKey("n", "c"), Gvk("g", "v", "K:n/x"), ObjectKey("m", "a")) == left;
    assert TargetIndexKey(ObjectKey("n", "c"), Gvk("g", "v", "K"), ObjectKey("n", "x:m/a")) == left;
  }
}
