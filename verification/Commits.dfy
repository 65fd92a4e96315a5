/** GitLab refuses to create a file that exists, so a commit that deletes the old versions is put in front. */
module Commits {
  import opened Options

  type Tree = map<string, string>

  /** A file to write, or to delete when there is no content. */
  datatype CommitFile = CommitFile(path: string, content: Option<string>)

  datatype Commit = Commit(message: string, files: seq<CommitFile>)

  const DELETE_MESSAGE := "Delete old files for resources"

  // == What commits do to a tree ==

  function ApplyFile(t: Tree, f: CommitFile): Tree {
    match f.content
    case Some(content) => t[f.path := content]
    case None => t - {f.path}
  }

  function ApplyFiles(t: Tree, fs: seq<CommitFile>): Tree {
    if fs == [] then t else ApplyFile(ApplyFiles(t, fs[..|fs| - 1]), fs[|fs| - 1])
  }

  function Files(cs: seq<Commit>): seq<CommitFile> {
    if cs == [] then [] else Files(cs[..|cs| - 1]) + cs[|cs| - 1].files
  }

  /** A write must land on an absent path, a deletion on a present one. */
  predicate Lands(t: Tree, f: CommitFile) {
    f.content.Some? <==> f.path !in t
  }

  predicate AllLand(t: Tree, fs: seq<CommitFile>) {
    fs == [] || (AllLand(t, fs[..|fs| - 1]) && Lands(ApplyFiles(t, fs[..|fs| - 1]), fs[|fs| - 1]))
  }

  lemma {:induction false} ApplyAppend(t: Tree, fs: seq<CommitFile>, gs: seq<CommitFile>)
    ensures ApplyFiles(t, fs + gs) == ApplyFiles(ApplyFiles(t, fs), gs)
    ensures AllLand(t, fs + gs) <==> AllLand(t, fs) && AllLand(ApplyFiles(t, fs), gs)
  {
    if gs == [] {
      assert fs + gs == fs;
    } else {
      assert (fs + gs)[..|fs + gs| - 1] == fs + gs[..|gs| - 1];
      ApplyAppend(t, fs, gs[..|gs| - 1]);
    }
  }

  // == The rewriting ==

  /** Everything up to and including the last slash. */
  function Dir(path: string): string {
    if path == "" || path[|path| - 1] == '/' then path else Dir(path[..|path| - 1])
  }

  /** The root, or a path that ends in a slash. */
  predicate IsDirectory(dir: string) {
    dir == "" || dir[|dir| - 1] == '/'
  }

  /** It is the directory the file lies in: what is left of the path is a plain name. */
  lemma {:induction false} DirIsDirectory(path: string)
    ensures IsDirectory(Dir(path)) && Dir(path) <= path && '/' !in path[|Dir(path)|..]
  {
    if path != "" && path[|path| - 1] != '/' {
      var n := |path| - 1;
      DirIsDirectory(path[..n]);
      assert path[|Dir(path)|..] == path[..n][|Dir(path)|..] + [path[n]];
    }
  }

  /** Answers to tree listings: the paths below a directory of the branch, or an error. */
  type Listing = string -> Option<seq<string>>

  function Entries(list: Listing, path: string): seq<string> {
    match list(Dir(path))
    case Some(paths) => paths
    case None => []
  }

  /** The directory of every file that is written can be listed. */
  predicate Listed(fs: seq<CommitFile>, list: Listing) {
    forall f | f in fs && f.content.Some? :: list(Dir(f.path)).Some?
  }

  function Count(paths: seq<string>, path: string): nat {
    if paths == [] then 0 else Count(paths[..|paths| - 1], path) + if paths[|paths| - 1] == path then 1 else 0
  }

  /** A listing of a directory that does not fail names each file below it once, and no other path below it. */
  ghost predicate ListsTree(list: Listing, t: Tree) {
    forall dir, path | IsDirectory(dir) && dir <= path :: ListsFile(list, t, dir, path)
  }

  predicate ListsFile(list: Listing, t: Tree, dir: string, path: string) {
    list(dir).Some? ==> Count(list(dir).value, path) == if path in t then 1 else 0
  }

  lemma ListedOnce(list: Listing, t: Tree, path: string)
    requires ListsTree(list, t) && list(Dir(path)).Some?
    ensures Count(Entries(list, path), path) == if path in t then 1 else 0
  {
    DirIsDirectory(path);
    assert ListsFile(list, t, Dir(path), path);
  }

  function Copies(path: string, n: nat): seq<CommitFile> {
    if n == 0 then [] else Copies(path, n - 1) + [CommitFile(path, None)]
  }

  /** The deletions for the files that are written and listed, in order. */
  function Updated(fs: seq<CommitFile>, list: Listing): seq<CommitFile> {
    if fs == [] then []
    else
      var f := fs[|fs| - 1];
      Updated(fs[..|fs| - 1], list)
      + if f.content.None? then [] else Copies(f.path, Count(Entries(list, f.path), f.path))
  }

  function Rewritten(cs: seq<Commit>, list: Listing): seq<Commit> {
    var updated := Updated(Files(cs), list);
    (if updated == [] then [] else [Commit(DELETE_MESSAGE, updated)]) + cs
  }

  /** Fails when a listing it needs fails; otherwise one deletion for each listed entry of a written path. */
  method GetUpdatedFiles(files: seq<CommitFile>, list: Listing) returns (updated: Option<seq<CommitFile>>)
    ensures updated == if Listed(files, list) then Some(Updated(files, list)) else None
  {
    var found: seq<CommitFile> := [];
    for i := 0 to |files|
      invariant found == Updated(files[..i], list) && Listed(files[..i], list)
    {
      assert files[..i + 1][..i] == files[..i];
      assert files[..i + 1] == files[..i] + [files[i]];
      if files[i].content.None? {
        continue;
      }
      var entries := list(Dir(files[i].path));
      if entries.None? {
        assert files[i] in files;
        return None;
      }
      found := AppendCopies(found, entries.value, files[i].path);
    }
    assert files[..|files|] == files;
    return Some(found);
  }

  /** The inner loop: the entries with that path, as deletions. */
  method AppendCopies(before: seq<CommitFile>, entries: seq<string>, path: string) returns (found: seq<CommitFile>)
    ensures found == before + Copies(path, Count(entries, path))
  {
    found := before;
    for j := 0 to |entries|
      invariant found == before + Copies(path, Count(entries[..j], path))
    {
      assert entries[..j + 1][..j] == entries[..j];
      if entries[j] == path {
        found := found + [CommitFile(entries[j], None)];
      }
    }
    assert entries[..|entries|] == entries;
  }

  lemma {:induction false} UpdatedAreDeletions(fs: seq<CommitFile>, list: Listing)
    ensures forall f | f in Updated(fs, list) ::
      f.content == None && exists g | g in fs :: g.path == f.path && g.content.Some?
  {
    if fs != [] {
      var last := fs[|fs| - 1];
      UpdatedAreDeletions(fs[..|fs| - 1], list);
      CopiesAreDeletions(last.path, Count(Entries(list, last.path), last.path));
      assert last in fs;
    }
  }

  lemma {:induction false} CopiesAreDeletions(path: string, n: nat)
    ensures |Copies(path, n)| == n && forall f | f in Copies(path, n) :: f == CommitFile(path, None)
  {
    if n > 0 {
      CopiesAreDeletions(path, n - 1);
    }
  }

  /** The commit list that is sent in place of the given one; nothing is sent when a listing fails. */
  method RewriteCommits(input: seq<Commit>, list: Listing) returns (commits: Option<seq<Commit>>)
    ensures commits == if Listed(Files(input), list) then Some(Rewritten(input, list)) else None
  {
    hide Updated, Listed;
    var files: seq<CommitFile> := [];
    for i := 0 to |input|
      invariant files == Files(input[..i])
    {
      assert input[..i + 1][..i] == input[..i];
      files := files + input[i].files;
    }
    assert input[..|input|] == input;
    var updated := GetUpdatedFiles(files, list);
    if updated.None? {
      return None;
    }
    var updatedFiles := updated.value;
    assert forall f | f in updatedFiles :: f.content == None by {
      UpdatedAreDeletions(files, list);
    }
    var sent: seq<Commit> := [];
    if |updatedFiles| > 0 {
      ghost var was := updatedFiles;
      for idx := 0 to |updatedFiles|
        invariant updatedFiles == was
      {
        assert updatedFiles[idx] in was;
        updatedFiles := updatedFiles[idx := updatedFiles[idx].(content := None)];
      }
      sent := sent + [Commit(DELETE_MESSAGE, updatedFiles)];
    }
    assert updatedFiles == Updated(files, list);
    assert sent + input == Rewritten(input, list);
    return Some(sent + input);
  }

  /** A branch of the repository, changed by one API call a commit. */
  class Branch {
    var tree: Tree

    constructor (tree: Tree)
      ensures this.tree == tree
    {
      this.tree := tree;
    }

    /** A commit is made as a whole, or refused and nothing changes. */
    method Create(files: seq<CommitFile>) returns (ok: bool)
      modifies this
      ensures ok <==> AllLand(old(tree), files)
      ensures tree == if ok then ApplyFiles(old(tree), files) else old(tree)
    {
      var t := tree;
      for i := 0 to |files|
        invariant tree == old(tree) && t == ApplyFiles(tree, files[..i]) && AllLand(tree, files[..i])
      {
        assert files[..i + 1][..i] == files[..i];
        if files[i].content.Some? == (files[i].path in t) {
          assert !AllLand(tree, files[..i + 1]);
          ApplyAppend(tree, files[..i + 1], files[i + 1..]);
          assert files[..i + 1] + files[i + 1..] == files;
          return false;
        }
        t := ApplyFile(t, files[i]);
      }
      assert files[..|files|] == files;
      tree := t;
      return true;
    }
  }

  /** Commits before number `n` are accepted, and it is refused. */
  predicate RefusedAt(t: Tree, commits: seq<Commit>, n: int) {
    && 0 <= n < |commits|
    && AllLand(t, Files(commits[..n])) && !AllLand(ApplyFiles(t, Files(commits[..n])), commits[n].files)
  }

  /** Either all commits are made, or those before the first one that is refused. */
  method WriteFilesToBranch(branch: Branch, commits: seq<Commit>) returns (ok: bool, ghost made: nat)
    modifies branch
    ensures ok <==> AllLand(old(branch.tree), Files(commits))
    ensures if ok then made == |commits| else RefusedAt(old(branch.tree), commits, made)
    ensures made <= |commits| && branch.tree == ApplyFiles(old(branch.tree), Files(commits[..made]))
  {
    var t := branch.tree;
    for i := 0 to |commits|
      invariant branch.tree == ApplyFiles(t, Files(commits[..i])) && AllLand(t, Files(commits[..i]))
    {
      assert commits[..i + 1][..i] == commits[..i];
      var adapted: seq<CommitFile> := [];
      for idx := 0 to |commits[i].files|
        invariant adapted == commits[i].files[..idx]
      {
        adapted := adapted + [CommitFile(commits[i].files[idx].path, commits[i].files[idx].content)];
      }
      assert adapted == commits[i].files;
      ApplyAppend(t, Files(commits[..i]), adapted);
      assert Files(commits[..i + 1]) == Files(commits[..i]) + adapted;
      var created := branch.Create(adapted);
      if !created {
        PrefixLands(t, commits, i + 1);
        return false, i;
      }
    }
    assert commits[..|commits|] == commits;
    return true, |commits|;
  }

  /** A commit that is refused spoils the whole list. */
  lemma {:induction false} PrefixLands(t: Tree, cs: seq<Commit>, n: nat)
    requires n <= |cs|
    ensures AllLand(t, Files(cs)) ==> AllLand(t, Files(cs[..n]))
  {
    if n < |cs| {
      var rest := cs[..|cs| - 1];
      ApplyAppend(t, Files(rest), cs[|cs| - 1].files);
      assert rest[..n] == cs[..n];
      PrefixLands(t, rest, n);
    } else {
      assert cs[..n] == cs;
    }
  }

  // == The final tree ==

  /** The last entry for a path, if there is one. */
  function Last(fs: seq<CommitFile>, path: string): Option<CommitFile> {
    if fs == [] then None
    else if fs[|fs| - 1].path == path then Some(fs[|fs| - 1])
    else Last(fs[..|fs| - 1], path)
  }

  function Lookup(t: Tree, path: string): Option<string> {
    if path in t then Some(t[path]) else None
  }

  lemma {:induction false} LastEntryDecides(t: Tree, fs: seq<CommitFile>, path: string)
    ensures Lookup(ApplyFiles(t, fs), path)
         == match Last(fs, path) case Some(f) => f.content case None => Lookup(t, path)
  {
    if fs != [] {
      LastEntryDecides(t, fs[..|fs| - 1], path);
    }
  }

  lemma {:induction false} LastOfAppend(fs: seq<CommitFile>, gs: seq<CommitFile>, path: string)
    ensures Last(fs + gs, path) == if Last(gs, path).Some? then Last(gs, path) else Last(fs, path)
  {
    if gs == [] {
      assert fs + gs == fs;
    } else {
      assert (fs + gs)[..|fs + gs| - 1] == fs + gs[..|gs| - 1];
      LastOfAppend(fs, gs[..|gs| - 1], path);
    }
  }

  lemma {:induction false} LastIsThere(fs: seq<CommitFile>, path: string)
    ensures Last(fs, path).Some? <==> exists f | f in fs :: f.path == path
  {
    if fs != [] {
      LastIsThere(fs[..|fs| - 1], path);
      assert forall f :: f in fs <==> f in fs[..|fs| - 1] || f == fs[|fs| - 1];
    }
  }

  lemma FilesOfRewritten(cs: seq<Commit>, list: Listing)
    ensures Files(Rewritten(cs, list)) == Updated(Files(cs), list) + Files(cs)
  {
    var updated := Updated(Files(cs), list);
    if updated == [] {
      assert [] + cs == cs;
    } else {
      FilesPrepend(Commit(DELETE_MESSAGE, updated), cs);
    }
  }

  lemma {:induction false} FilesPrepend(c: Commit, cs: seq<Commit>)
    ensures Files([c] + cs) == c.files + Files(cs)
  {
    if cs == [] {
      assert [c] + cs == [c] && Files([c]) == Files([]) + c.files;
    } else {
      assert ([c] + cs)[..|cs|] == [c] + cs[..|cs| - 1];
      FilesPrepend(c, cs[..|cs| - 1]);
      assert c.files + Files(cs[..|cs| - 1]) + cs[|cs| - 1].files
          == c.files + (Files(cs[..|cs| - 1]) + cs[|cs| - 1].files);
    }
  }

  /** Deleting first never changes the final tree, whatever the tree, the commits and the listings. */
  lemma RewritingKeepsFinalTree(t: Tree, cs: seq<Commit>, list: Listing)
    ensures ApplyFiles(t, Files(Rewritten(cs, list))) == ApplyFiles(t, Files(cs))
  {
    var fs := Files(cs);
    var updated := Updated(fs, list);
    FilesOfRewritten(cs, list);
    forall path: string
      ensures Lookup(ApplyFiles(t, updated + fs), path) == Lookup(ApplyFiles(t, fs), path)
    {
      LastEntryDecides(t, fs, path);
      LastEntryDecides(t, updated + fs, path);
      LastOfAppend(updated, fs, path);
      LastIsThere(updated, path);
      LastIsThere(fs, path);
      UpdatedAreDeletions(fs, list);
    }
    SameLookups(ApplyFiles(t, updated + fs), ApplyFiles(t, fs));
  }

  lemma SameLookups(t: Tree, t': Tree)
    requires forall path: string :: Lookup(t, path) == Lookup(t', path)
    ensures t == t'
  {
    forall path: string
      ensures path in t <==> path in t'
      ensures path in t ==> t[path] == t'[path]
    {
      assert Lookup(t, path) == Lookup(t', path);
    }
  }

  // == When the rewritten commits are accepted ==

  /** The operations on one path, in order: true for a write, false for a deletion. */
  function Ops(fs: seq<CommitFile>, path: string): seq<bool> {
    if fs == [] then []
    else if fs[|fs| - 1].path == path then Ops(fs[..|fs| - 1], path) + [fs[|fs| - 1].content.Some?]
    else Ops(fs[..|fs| - 1], path)
  }

  /** Writes and deletions alternate, starting with a write on an absent path. */
  predicate Alternates(present: bool, ops: seq<bool>)
    decreases ops
  {
    ops == [] || (ops[0] == !present && Alternates(ops[0], ops[1..]))
  }

  function Writes(ops: seq<bool>): nat {
    if ops == [] then 0 else Writes(ops[..|ops| - 1]) + if ops[|ops| - 1] then 1 else 0
  }

  lemma {:induction false} PresentAfter(t: Tree, fs: seq<CommitFile>, path: string)
    ensures path in ApplyFiles(t, fs) <==> if Ops(fs, path) == [] then path in t else Ops(fs, path)[|Ops(fs, path)| - 1]
  {
    if fs != [] {
      PresentAfter(t, fs[..|fs| - 1], path);
    }
  }

  lemma {:induction false} AlternatesExtends(present: bool, ops: seq<bool>, op: bool)
    ensures Alternates(present, ops + [op])
      <==> Alternates(present, ops) && op == !(if ops == [] then present else ops[|ops| - 1])
    decreases ops
  {
    if ops == [] {
      assert (ops + [op])[1..] == [];
    } else {
      assert (ops + [op])[1..] == ops[1..] + [op];
      AlternatesExtends(ops[0], ops[1..], op);
    }
  }

  /** A list is accepted exactly when the operations on each path alternate. */
  lemma {:induction false} AcceptedWhenAllAlternate(t: Tree, fs: seq<CommitFile>)
    ensures AllLand(t, fs) <==> forall path: string :: Alternates(path in t, Ops(fs, path))
  {
    if fs != [] {
      var rest, last := fs[..|fs| - 1], fs[|fs| - 1];
      AcceptedWhenAllAlternate(t, rest);
      PresentAfter(t, rest, last.path);
      AlternatesExtends(last.path in t, Ops(rest, last.path), last.content.Some?);
      assert forall path: string | path != last.path :: Ops(fs, path) == Ops(rest, path);
    }
  }

  function Deletions(n: nat): seq<bool> {
    seq(n, _ => false)
  }

  lemma {:induction false} OpsOfCopies(fs: seq<CommitFile>, path: string, name: string, n: nat)
    ensures Ops(fs + Copies(name, n), path) == Ops(fs, path) + if path == name then Deletions(n) else []
  {
    var all := fs + Copies(name, n);
    if n == 0 {
      assert all == fs;
    } else {
      assert all[..|all| - 1] == fs + Copies(name, n - 1);
      OpsOfCopies(fs, path, name, n - 1);
    }
  }

  /** The computed deletions: one for each write of a path that is in the tree. */
  lemma {:induction false} OpsOfUpdated(t: Tree, fs: seq<CommitFile>, list: Listing, path: string)
    requires ListsTree(list, t) && Listed(fs, list)
    ensures Ops(Updated(fs, list), path) == Deletions(if path in t then Writes(Ops(fs, path)) else 0)
  {
    if fs != [] {
      var rest, f := fs[..|fs| - 1], fs[|fs| - 1];
      OpsOfUpdated(t, rest, list, path);
      assert Updated(rest, list) + [] == Updated(rest, list);
      assert forall n: nat :: Deletions(n) + Deletions(1) == Deletions(n + 1);
      assert forall n: nat :: Deletions(n) + Deletions(0) == Deletions(n);
      if f.content.Some? {
        assert f in fs;
        ListedOnce(list, t, f.path);
        OpsOfCopies(Updated(rest, list), path, f.path, Count(Entries(list, f.path), f.path));
      }
      if f.path == path {
        assert Ops(fs, path)[..|Ops(fs, path)| - 1] == Ops(rest, path);
      }
    }
  }

  lemma {:induction false} OpsOfAppend(fs: seq<CommitFile>, gs: seq<CommitFile>, path: string)
    ensures Ops(fs + gs, path) == Ops(fs, path) + Ops(gs, path)
  {
    if gs == [] {
      assert fs + gs == fs;
    } else {
      assert (fs + gs)[..|fs + gs| - 1] == fs + gs[..|gs| - 1];
      OpsOfAppend(fs, gs[..|gs| - 1], path);
    }
  }

  /**
   What one path must look like: where nothing is written, at most one deletion, of a file that is there; otherwise
   writes and deletions alternate from a write on, and a file that is there is written once only.
   */
  predicate Acceptable(present: bool, ops: seq<bool>) {
    if Writes(ops) == 0 then |ops| <= (if present then 1 else 0)
    else Alternates(false, ops) && (present ==> Writes(ops) == 1)
  }

  lemma {:induction false} NoWrites(ops: seq<bool>)
    ensures Writes(ops) == 0 <==> forall i | 0 <= i < |ops| :: !ops[i]
  {
    if ops != [] {
      NoWrites(ops[..|ops| - 1]);
    }
  }

  lemma AlternatesAfterDeletions(present: bool, n: nat, ops: seq<bool>)
    requires n == if present then Writes(ops) else 0
    ensures Alternates(present, Deletions(n) + ops) <==> Acceptable(present, ops)
  {
    var all := Deletions(n) + ops;
    NoWrites(ops);
    if n == 0 {
      assert all == ops;
      assert ops != [] && ops[1..] != [] ==> ops[1..][0] == ops[1];
    } else {
      assert all[0] == false && all[1..] == Deletions(n - 1) + ops;
      if n == 1 {
        assert all[1..] == ops;
      } else {
        assert all[1..][0] == false;
      }
    }
  }

  /**
   Exactly when the rewritten list is accepted: every path is acceptable. In particular, a file that exists must not
   be written twice, since it would be deleted twice up front.
   */
  lemma RewrittenIsAcceptedIff(t: Tree, cs: seq<Commit>, list: Listing)
    requires ListsTree(list, t) && Listed(Files(cs), list)
    ensures AllLand(t, Files(Rewritten(cs, list)))
      <==> forall path: string :: Acceptable(path in t, Ops(Files(cs), path))
  {
    var fs := Files(cs);
    var all := Updated(fs, list) + fs;
    FilesOfRewritten(cs, list);
    AcceptedWhenAllAlternate(t, all);
    forall path: string
      ensures Alternates(path in t, Ops(all, path)) <==> Acceptable(path in t, Ops(fs, path))
    {
      OpsOfAppend(Updated(fs, list), fs, path);
      OpsOfUpdated(t, fs, list, path);
      AlternatesAfterDeletions(path in t, if path in t then Writes(Ops(fs, path)) else 0, Ops(fs, path));
    }
  }

  predicate UniquePaths(fs: seq<CommitFile>) {
    forall i, j | 0 <= i < j < |fs| :: fs[i].path != fs[j].path
  }

  lemma {:induction false} UniqueOps(fs: seq<CommitFile>, path: string)
    requires UniquePaths(fs)
    ensures |Ops(fs, path)| <= 1
    ensures (forall f | f in fs :: f.path != path) ==> Ops(fs, path) == []
    ensures forall f | f in fs && f.path == path :: Ops(fs, path) == [f.content.Some?]
  {
    if fs != [] {
      var rest, last := fs[..|fs| - 1], fs[|fs| - 1];
      UniqueOps(rest, path);
      assert forall f :: f in fs <==> f in rest || f == last;
    }
  }

  lemma SingleOp(present: bool, op: bool)
    ensures Acceptable(present, [op]) <==> op || present
  {
    var ops := [op];
    assert ops[..|ops| - 1] == [] && ops[1..] == [];
    assert Writes(ops) == if op then 1 else 0;
    assert Alternates(false, ops) <==> op;
  }

  /** With each path in one entry at most, only deletions of missing files are refused; every write is accepted. */
  lemma UniquePathsAreAccepted(t: Tree, cs: seq<Commit>, list: Listing)
    requires ListsTree(list, t) && Listed(Files(cs), list) && UniquePaths(Files(cs))
    ensures AllLand(t, Files(Rewritten(cs, list))) <==> forall f | f in Files(cs) && f.content.None? :: f.path in t
  {
    var fs := Files(cs);
    RewrittenIsAcceptedIff(t, cs, list);
    forall path: string
      ensures Acceptable(path in t, Ops(fs, path))
        <==> forall f | f in fs && f.path == path && f.content.None? :: path in t
    {
      UniqueOps(fs, path);
      if f :| f in fs && f.path == path {
        assert Ops(fs, path) == [f.content.Some?];
        SingleOp(path in t, f.content.Some?);
        forall g | g in fs && g.path == path
          ensures g.content.None? <==> f.content.None?
        {
          assert Ops(fs, path) == [g.content.Some?];
          assert [g.content.Some?][0] == [f.content.Some?][0];
        }
      }
    }
  }

  // == When they are not ==

  predicate Written(fs: seq<CommitFile>, path: string) {
    exists f | f in fs :: f.path == path && f.content.Some?
  }

  lemma {:induction false} WrittenIsDeleted(t: Tree, fs: seq<CommitFile>, list: Listing, path: string)
    requires ListsTree(list, t) && Listed(fs, list) && path in t
    ensures Written(fs, path) <==> CommitFile(path, None) in Updated(fs, list)
  {
    if fs != [] {
      var rest, last := fs[..|fs| - 1], fs[|fs| - 1];
      WrittenIsDeleted(t, rest, list, path);
      if last.content.Some? {
        assert last in fs;
        ListedOnce(list, t, last.path);
      }
      CopiesAreDeletions(last.path, Count(Entries(list, last.path), last.path));
      assert forall f :: f in fs <==> f in rest || f == last;
      if last.path == path && last.content.Some? {
        assert Copies(path, 1)[0] in Copies(path, 1);
      }
    }
  }

  lemma {:induction false} LastIsIn(fs: seq<CommitFile>, path: string)
    ensures Last(fs, path).Some? ==> Last(fs, path).value in fs && Last(fs, path).value.path == path
  {
    if fs != [] {
      LastIsIn(fs[..|fs| - 1], path);
    }
  }

  /** The tree without the files that are to be written. */
  function Without(t: Tree, fs: seq<CommitFile>): Tree {
    map path | path in t && !Written(fs, path) :: t[path]
  }

  lemma DeletionsRemoveWritten(t: Tree, fs: seq<CommitFile>, list: Listing)
    requires ListsTree(list, t) && Listed(fs, list)
    ensures ApplyFiles(t, Updated(fs, list)) == Without(t, fs)
  {
    var updated := Updated(fs, list);
    UpdatedAreDeletions(fs, list);
    forall path: string
      ensures Lookup(ApplyFiles(t, updated), path) == Lookup(Without(t, fs), path)
    {
      LastEntryDecides(t, updated, path);
      LastIsThere(updated, path);
      LastIsIn(updated, path);
      if path in t {
        WrittenIsDeleted(t, fs, list, path);
      }
    }
    SameLookups(ApplyFiles(t, updated), Without(t, fs));
  }

  lemma AlternatingDeletions(present: bool, n: nat)
    ensures Alternates(present, Deletions(n)) <==> n <= if present then 1 else 0
  {
    var ds := Deletions(n);
    if n >= 1 {
      assert ds[0] == false && ds[1..] == Deletions(n - 1);
      if n >= 2 {
        assert ds[1..][0] == false;
      }
    }
  }

  /** The deletions land exactly when no file that exists is written twice. */
  lemma DeletionsLandIff(t: Tree, fs: seq<CommitFile>, list: Listing)
    requires ListsTree(list, t) && Listed(fs, list)
    ensures AllLand(t, Updated(fs, list)) <==> forall path | path in t :: Writes(Ops(fs, path)) <= 1
  {
    AcceptedWhenAllAlternate(t, Updated(fs, list));
    forall path: string
      ensures Alternates(path in t, Ops(Updated(fs, list), path)) <==> (path in t ==> Writes(Ops(fs, path)) <= 1)
    {
      OpsOfUpdated(t, fs, list, path);
      AlternatingDeletions(path in t, if path in t then Writes(Ops(fs, path)) else 0);
    }
  }

  /**
   Exactly when the deletions are made and the first of the given commits is then refused. The branch is left without
   the files that were to be written.
   */
  lemma OnlyDeletionsAreMadeIff(t: Tree, cs: seq<Commit>, list: Listing)
    requires ListsTree(list, t) && Listed(Files(cs), list) && cs != [] && Updated(Files(cs), list) != []
    ensures RefusedAt(t, Rewritten(cs, list), 1)
      <==> (forall path | path in t :: Writes(Ops(Files(cs), path)) <= 1)
           && !AllLand(Without(t, Files(cs)), cs[0].files)
    ensures ApplyFiles(t, Files(Rewritten(cs, list)[..1])) == Without(t, Files(cs))
  {
    var updated := Updated(Files(cs), list);
    var deletion := Commit(DELETE_MESSAGE, updated);
    assert Rewritten(cs, list)[..1] == [deletion] && Rewritten(cs, list)[1] == cs[0];
    assert [deletion][..0] == [] && Files([deletion]) == [] + updated == updated;
    DeletionsLandIff(t, Files(cs), list);
    DeletionsRemoveWritten(t, Files(cs), list);
  }
}
