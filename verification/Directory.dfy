// Creating the directories a file needs: a recursive walk that cuts its path buffer at a slash,
// tries mkdir, creates the parents when they are missing, and puts the slash back.

module Directory {
  import opened CStrings

  const ENOENT := 2
  const EEXIST := 17
  const ENOTDIR := 20

  /** Position of the last slash, or -1. */
  function LastSlash(p: string): (s: int)
    ensures -1 <= s < |p|
    ensures s >= 0 ==> p[s] == '/'
    ensures forall i :: s < i < |p| ==> p[i] != '/'
  {
    if p == "" then -1
    else if p[|p| - 1] == '/' then |p| - 1
    else LastSlash(p[..|p| - 1])
  }

  /** The name is in the root or in the current directory, which always exist. */
  predicate Top(p: string) {
    LastSlash(p) <= 0
  }

  function Parent(p: string): (d: string)
    requires !Top(p)
    ensures |d| < |p|
  {
    p[..LastSlash(p)]
  }

  /** The directories above `p`, apart from the root and the current one. */
  function Ancestors(p: string): set<string>
    decreases |p|
  {
    if Top(p) then {} else {Parent(p)} + Ancestors(Parent(p))
  }

  /** They are what stands before each slash but a leading one. */
  lemma {:induction false} AncestorsAre(p: string, a: string)
    ensures a in Ancestors(p) <==> exists i :: 0 < i < |p| && p[i] == '/' && a == p[..i]
    decreases |p|
  {
    if !Top(p) {
      var s, d := LastSlash(p), Parent(p);
      AncestorsAre(d, a);
      assert forall i :: 0 <= i < s ==> d[i] == p[i] && d[..i] == p[..i];
    }
  }

  lemma {:induction false} AncestorsAreShorter(p: string, a: string)
    requires a in Ancestors(p)
    ensures |a| < |p|
    decreases |p|
  {
    if a != Parent(p) {
      AncestorsAreShorter(Parent(p), a);
    }
  }

  // ---------- a file system ----------

  // `refused` holds the names that cannot be created where they are missing, and why: no
  // permission, no space, a read-only file system, a name too long.
  datatype Tree = Tree(dirs: set<string>, files: set<string>, refused: map<string, int>) {
    /** Directories and files are different things and live in directories. */
    ghost predicate Valid() {
      && dirs !! files && "" !in dirs && "" !in files
      && (forall p :: p in refused ==> refused[p] > 0 && refused[p] != ENOENT && refused[p] != EEXIST)
      && forall p :: p in dirs || p in files ==> Top(p) || Parent(p) in dirs
    }

    predicate ParentExists(p: string) {
      Top(p) || Parent(p) in dirs
    }

    ghost predicate Blocked(p: string) {
      exists a :: a in Ancestors(p) && a in files
    }

    /** The errno of mkdir, 0 for success. */
    ghost function MkdirErrno(p: string): int {
      if p == "" then ENOENT
      else if Blocked(p) then ENOTDIR
      else if !ParentExists(p) then ENOENT
      else if p in dirs || p in files then EEXIST
      else if p in refused then refused[p]
      else 0
    }

    /** `d` is a directory or can be made one, parents first. */
    ghost predicate Makeable(d: string)
      decreases |d|
    {
      && d != ""
      && (d in dirs || (d !in files && d !in refused && (Top(d) || Makeable(Parent(d)))))
    }

    lemma {:induction false} AncestorsOfExisting(p: string, a: string)
      requires Valid() && (p in dirs || p in files) && a in Ancestors(p)
      ensures a in dirs
      decreases |p|
    {
      if a != Parent(p) {
        AncestorsOfExisting(Parent(p), a);
      }
    }

    lemma {:induction false} BlockedIsNotMakeable(d: string, a: string)
      requires Valid() && a in Ancestors(d) && a in files
      ensures !Makeable(d) && d !in files
      decreases |d|
    {
      if d in dirs || d in files {
        AncestorsOfExisting(d, a);
      } else if a != Parent(d) {
        BlockedIsNotMakeable(Parent(d), a);
      }
    }
  }

  /** A directory can be had exactly when neither it nor a directory above it is a file, or is
      missing and refused. */
  lemma {:induction false} MakeableExactly(t: Tree, d: string)
    requires t.Valid() && d != ""
    ensures t.Makeable(d)
            <==> forall a :: a == d || a in Ancestors(d) ==> a in t.dirs || (a !in t.files && a !in t.refused)
    decreases |d|
  {
    if d in t.dirs {
      forall a | a in Ancestors(d)
        ensures a in t.dirs
      {
        t.AncestorsOfExisting(d, a);
      }
    } else if !Top(d) {
      MakeableExactly(t, Parent(d));
    }
  }

  /** When mkdir does not ask for parents first, its answer settles the matter. */
  lemma {:induction false} MkdirSettles(t: Tree, d: string)
    requires t.Valid() && (t.MkdirErrno(d) != ENOENT || d == "")
    ensures t.MkdirErrno(d) == 0 || t.MkdirErrno(d) == EEXIST <==> d in t.files || t.Makeable(d)
  {
    if d != "" && t.Blocked(d) {
      var a :| a in Ancestors(d) && a in t.files;
      t.BlockedIsNotMakeable(d, a);
    } else if d != "" && d !in t.dirs && d !in t.files && !Top(d) {
      assert t.Makeable(Parent(d)) by {
        ExistingIsMakeable(t, Parent(d));
      }
    }
  }

  lemma ExistingIsMakeable(t: Tree, d: string)
    requires t.Valid() && d in t.dirs
    ensures t.Makeable(d)
  {
  }

  /** When it does, the parent is neither there nor a file. */
  lemma MissingParent(t: Tree, d: string)
    requires t.Valid() && t.MkdirErrno(d) == ENOENT && d != ""
    ensures !Top(d) && Parent(d) !in t.dirs && Parent(d) !in t.files
    ensures d !in t.dirs && d !in t.files
    ensures t.Makeable(d) <==> d !in t.refused && t.Makeable(Parent(d))
  {
    assert Parent(d) in Ancestors(d);
  }

  /** Once the parents are there, the second mkdir can only be refused. */
  lemma SecondMkdir(t0: Tree, t1: Tree, d: string)
    requires t0.Valid() && t1.Valid() && t0.MkdirErrno(d) == ENOENT && d != ""
    requires t1.files == t0.files && t1.refused == t0.refused
    requires t0.dirs <= t1.dirs <= t0.dirs + Ancestors(d)
    requires !Top(d) && Parent(d) in t1.dirs
    ensures t1.MkdirErrno(d) == if d in t0.refused then t0.refused[d] else 0
  {
    MissingParent(t0, d);
    if d in t1.dirs {
      AncestorsAreShorter(d, d);
    }
  }

  class FileSystem {
    var tree: Tree

    constructor (tree: Tree)
      ensures this.tree == tree
    {
      this.tree := tree;
    }

    // mkdir(p, 0777), returning errno
    method Mkdir(p: string) returns (errno: int)
      requires tree.Valid()
      modifies this
      ensures tree.Valid()
      ensures errno == old(tree).MkdirErrno(p)
      ensures tree == if errno == 0 then old(tree).(dirs := old(tree).dirs + {p}) else old(tree)
    {
      var blocked := AnyIsFile(p);
      if p == "" || (!blocked && !tree.ParentExists(p)) {
        return ENOENT;
      }
      if blocked {
        return ENOTDIR;
      }
      if p in tree.dirs || p in tree.files {
        return EEXIST;
      }
      if p in tree.refused {
        return tree.refused[p];
      }
      tree := tree.(dirs := tree.dirs + {p});
      errno := 0;
    }

    method AnyIsFile(p: string) returns (blocked: bool)
      ensures blocked == tree.Blocked(p)
    {
      blocked := false;
      var q := p;
      while !Top(q)
        invariant tree.Blocked(p) <==> blocked || tree.Blocked(q)
        decreases |q|
      {
        q := Parent(q);
        blocked := blocked || q in tree.files;
      }
    }
  }

  // ---------- directoryCreate ----------

  method StrRChrSlash(path: array<char>, ghost x: string) returns (slash: int)
    requires CStr(path[..], 0, x)
    ensures slash == LastSlash(x)
  {
    assert forall i :: 0 <= i < |x| ==> path[i] == path[..|x|][i] == x[i];
    slash := -1;
    var i := 0;
    while path[i] != NUL
      invariant 0 <= i <= |x|
      invariant slash == LastSlash(x[..i])
      decreases |x| - i
    {
      assert x[..i + 1][..i] == x[..i];
      if path[i] == '/' {
        slash := i;
      }
      i := i + 1;
    }
    assert x[..i] == x;
  }

  /** The outcome of creating the directory part of `x`: it comes out fine exactly when there is
      none, when it is a file already (mkdir reports that as existing), or when it can be made;
      then it is there. Whatever happens, only directories above `x` were added. */
  ghost predicate Created(x: string, before: Tree, after: Tree, ret: int) {
    var s := LastSlash(x);
    && after.Valid() && after.files == before.files && after.refused == before.refused
    && before.dirs <= after.dirs <= before.dirs + Ancestors(x)
    && ret <= 0
    && (ret == 0 <==> s == -1 || x[..s] in before.files || before.Makeable(x[..s]))
    && (ret == 0 && s >= 0 ==> x[..s] in after.dirs || x[..s] in after.files)
  }

  /** Success leaves every directory above `x` in place; the nearest may be a file instead. */
  lemma {:induction false} CreatedHasAncestors(x: string, before: Tree, after: Tree, a: string)
    requires Created(x, before, after, 0) && a in Ancestors(x)
    ensures a in after.dirs || (a == Parent(x) && a in after.files)
  {
    if a != Parent(x) {
      after.AncestorsOfExisting(Parent(x), a);
    }
  }

  /** The directory part of the path is an existing regular file: mkdir says that it exists, and
      that counts as success. */
  lemma FileCountsAsDirectory()
    ensures var t := Tree({}, {"a"}, map[]);
            t.Valid() && LastSlash("a/b") == 1 && t.MkdirErrno("a") == EEXIST && Created("a/b", t, t, 0)
  {
    var x, t := "a/b", Tree({}, {"a"}, map[]);
    assert LastSlash("a") == -1;
    assert LastSlash(x) == 1 by {
      assert x[..|x| - 1] == "a/";
    }
    assert x[..1] == "a";
    assert Ancestors("a") == {};
  }

  /** The case where the parents have to be made first. */
  lemma CreatedAfterParents(x: string, before: Tree, between: Tree, after: Tree, errno: int)
    requires LastSlash(x) >= 0 && before.Valid()
    requires var d := x[..LastSlash(x)];
             && before.MkdirErrno(d) == ENOENT
             && Created(d, before, between, 0)
             && errno == between.MkdirErrno(d)
             && after == (if errno == 0 then between.(dirs := between.dirs + {d}) else between)
             && after.Valid()
    ensures errno != EEXIST && Created(x, before, after, -errno)
  {
    var d := x[..LastSlash(x)];
    if d != "" {
      MissingParent(before, d);
      SecondMkdir(before, between, d);
    }
  }

  lemma NotCreatedWithoutParents(x: string, before: Tree, after: Tree, ret: int)
    requires LastSlash(x) >= 0 && before.Valid()
    requires var d := x[..LastSlash(x)];
             before.MkdirErrno(d) == ENOENT && Created(d, before, after, ret)
    requires ret < 0
    ensures Created(x, before, after, ret)
  {
    var d := x[..LastSlash(x)];
    if d != "" {
      MissingParent(before, d);
    }
  }

  /** directoryCreate: see `Created`; the path buffer is back as it was, byte for byte, on every
      return. */
  method DirectoryCreate(path: array<char>, fs: FileSystem, ghost x: string) returns (ret: int)
    requires CStr(path[..], 0, x) && fs.tree.Valid()
    modifies path, fs
    ensures path[..] == old(path[..])
    ensures Created(x, old(fs.tree), fs.tree, ret)
    decreases |x|
  {
    var slash := StrRChrSlash(path, x);
    if slash == -1 {
      return 0;
    }

    ghost var before, d := fs.tree, x[..slash];
    path[slash] := NUL;
    assert path[..slash] == d;
    ret := fs.Mkdir(path[..slash]);
    if ret == ENOENT {
      ret := DirectoryCreate(path, fs, d);
      if ret < 0 {
        NotCreatedWithoutParents(x, before, fs.tree, ret);
        path[slash] := '/';
        return;
      }
      ghost var between := fs.tree;
      ret := fs.Mkdir(path[..slash]);
      CreatedAfterParents(x, before, between, fs.tree, ret);
    } else {
      MkdirSettles(before, d);
    }
    if ret != 0 && ret != EEXIST {
      ret := -ret;
    } else {
      ret := 0;
    }
    path[slash] := '/';
  }
}
