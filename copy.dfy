/** What the exporter's recursive directory copy does to the filesystem:
    every entry inside the source that is not excluded gets a copy at the
    same place inside the destination. */
module Copying {
  import opened Paths
  import opened Host

  /** The path starts with one of the exclusion prefixes (`strpos($q, $ex) === 0`).
      The test is on raw strings, so "/a/b" also excludes "/a/bc". */
  predicate Excluded(q: string, exclude: seq<string>) {
    exists i :: 0 <= i < |exclude| && exclude[i] <= q
  }

  /** `q` is an entry inside `src` that the copy visits. */
  ghost predicate Live(fs: FileSystem, src: string, exclude: seq<string>, q: string) {
    q in fs && Under(q, src) && !Excluded(q, exclude)
  }

  ghost function LiveSet(fs: FileSystem, src: string, exclude: seq<string>): set<string> {
    set q | q in fs && Live(fs, src, exclude, q)
  }

  /** No visited path inside `src` is `dst`, lies inside `dst` or holds `dst`:
      the copy never reads what it writes. */
  ghost predicate Apart(src: string, dst: string, exclude: seq<string>) {
    forall q :: Under(q, src) && !Excluded(q, exclude) ==> !AtOrUnder(q, dst) && !Under(dst, q)
  }

  /** Nothing exists at or inside `dst`. */
  ghost predicate Vacant(fs: FileSystem, dst: string) {
    forall q :: q in fs ==> !AtOrUnder(q, dst)
  }

  /** `p` is unchanged from `base` to `fs`. */
  ghost predicate Kept(base: FileSystem, fs: FileSystem, p: string) {
    && (p in fs <==> p in base)
    && (p in fs ==> fs[p] == base[p])
  }

  /** `p`, inside `dst`, exists in `fs` exactly when the corresponding path
      inside `src` is visited, and then holds what that path holds in `base`. */
  ghost predicate CopiedAt(base: FileSystem, fs: FileSystem, src: string, dst: string, exclude: seq<string>, p: string)
    requires Under(p, dst)
  {
    && (p in fs <==> Live(base, src, exclude, Rebase(p, dst, src)))
    && (p in fs ==> fs[p] == base[Rebase(p, dst, src)])
  }

  /** `fs` is `base` with, inside `dst`, a copy of every visited entry of `src`:
      directories as directories, files with their content. */
  ghost predicate Mirrored(base: FileSystem, fs: FileSystem, src: string, dst: string, exclude: seq<string>) {
    && (forall p :: !Under(p, dst) ==> Kept(base, fs, p))
    && (forall p :: Under(p, dst) ==> CopiedAt(base, fs, src, dst, exclude, p))
  }

  /** What `copyDir` leaves behind: nothing changes unless `src` is a
      directory and `dst` can be created; then `dst` mirrors `src`. */
  ghost predicate CopiedTree(fs0: FileSystem, fs: FileSystem, src: string, dst: string, exclude: seq<string>) {
    if IsDirIn(fs0, src) && MkdirOk(fs0, dst) then Mirrored(Mkdir(fs0, dst), fs, src, dst, exclude) else fs == fs0
  }

  /** `CopiedAt` for the paths reached through the children in `kids - todo`. */
  ghost predicate CopiedSoFarAt(base: FileSystem, fs: FileSystem, src: string, dst: string, exclude: seq<string>,
                                kids: set<string>, todo: set<string>, p: string)
    requires Under(p, dst)
  {
    && (p in fs <==> Live(base, src, exclude, Rebase(p, dst, src)) && Done(Rebase(p, dst, src), src, kids, todo))
    && (p in fs ==> fs[p] == base[Rebase(p, dst, src)])
  }

  /** The loop invariant of the copy: `Mirrored`, for the entries reached
      through the children in `kids - todo`. */
  ghost predicate CopiedSoFar(base: FileSystem, fs: FileSystem, src: string, dst: string, exclude: seq<string>,
                              kids: set<string>, todo: set<string>) {
    && (forall p :: !Under(p, dst) ==> Kept(base, fs, p))
    && (forall p :: Under(p, dst) ==> CopiedSoFarAt(base, fs, src, dst, exclude, kids, todo, p))
  }

  /** `wp_mkdir_p` leaves `p` and its ancestors as directories and adds nothing else. */
  lemma MkdirMade(fs: FileSystem, p: string)
    requires MkdirOk(fs, p)
    ensures forall a :: a in Ancestors(p) + {p} ==> IsDirIn(Mkdir(fs, p), a)
    ensures forall q :: q in Mkdir(fs, p) <==> q in fs || q in Ancestors(p) || q == p
    ensures forall q :: q in fs ==> Mkdir(fs, p)[q] == fs[q]
  {
  }

  /** Visited paths are not touched by creating `dst` and its ancestors. */
  lemma MkdirKeepsLive(fs: FileSystem, src: string, dst: string, exclude: seq<string>)
    requires Apart(src, dst, exclude) && MkdirOk(fs, dst)
    ensures forall q :: Under(q, src) && !Excluded(q, exclude) ==>
      (q in Mkdir(fs, dst) <==> q in fs) && (q in fs ==> Mkdir(fs, dst)[q] == fs[q])
  {
    MkdirMade(fs, dst);
  }

  /** At the start of the loop nothing has been copied. */
  lemma CopyStart(base: FileSystem, src: string, dst: string, exclude: seq<string>, kids: set<string>)
    requires forall p :: p in base ==> !Under(p, dst)
    ensures CopiedSoFar(base, base, src, dst, exclude, kids, kids)
  {
  }

  /** Once every child has been processed, every visited entry has been copied. */
  lemma CopyFinish(base: FileSystem, fs: FileSystem, src: string, dst: string, exclude: seq<string>,
                   kids: set<string>)
    requires WellFormed(base)
    requires forall c :: c in base && ChildOf(c, src) ==> c in kids
    requires CopiedSoFar(base, fs, src, dst, exclude, kids, {})
    ensures Mirrored(base, fs, src, dst, exclude)
  {
    forall p | Under(p, dst) ensures CopiedAt(base, fs, src, dst, exclude, p) {
      assert CopiedSoFarAt(base, fs, src, dst, exclude, kids, {}, p);
      if Live(base, src, exclude, Rebase(p, dst, src)) {
        StepIsEntry(base, Rebase(p, dst, src), src);
      }
    }
  }

  /** An exclusion prefix of a path excludes everything inside it. */
  lemma ExcludedPrefix(c: string, q: string, exclude: seq<string>)
    ensures c <= q && Excluded(c, exclude) ==> Excluded(q, exclude)
  {
    if c <= q && Excluded(c, exclude) {
      var i :| 0 <= i < |exclude| && exclude[i] <= c;
      assert exclude[i] == q[..|exclude[i]|];
    }
  }

  /** Skipping an excluded child copies nothing, and nothing inside it is visited. */
  lemma CopySkip(base: FileSystem, fs: FileSystem, src: string, dst: string, exclude: seq<string>,
                 kids: set<string>, todo: set<string>, c: string)
    requires WellFormed(base)
    requires ChildOf(c, src) && Excluded(c, exclude)
    requires CopiedSoFar(base, fs, src, dst, exclude, kids, todo)
    ensures CopiedSoFar(base, fs, src, dst, exclude, kids, todo - {c})
  {
    forall p | Under(p, dst) ensures CopiedSoFarAt(base, fs, src, dst, exclude, kids, todo - {c}, p) {
      assert CopiedSoFarAt(base, fs, src, dst, exclude, kids, todo, p);
      var q := Rebase(p, dst, src);
      if Live(base, src, exclude, q) {
        StepTowardIsChild(q, src);
        ExcludedPrefix(c, q, exclude);
        assert StepToward(q, src) <= q;
      }
    }
  }

  /** Copying a file child adds exactly its copy. */
  lemma CopyFile(base: FileSystem, fsB: FileSystem, fs: FileSystem, src: string, dst: string,
                 exclude: seq<string>, kids: set<string>, todo: set<string>, c: string, name: string)
    requires WellFormed(base)
    requires c in todo && c in kids && ChildOf(c, src) && c == src + "/" + name
    requires Live(base, src, exclude, c) && !base[c].Dir?
    requires CopiedSoFar(base, fsB, src, dst, exclude, kids, todo)
    requires fs == fsB[dst + "/" + name := base[c]]
    ensures CopiedSoFar(base, fs, src, dst, exclude, kids, todo - {c})
  {
    var t := dst + "/" + name;
    RebaseChild(c, src, dst, name);
    RebaseBack(c, src, dst);
    forall p | !Under(p, dst) ensures Kept(base, fs, p) {
      assert Kept(base, fsB, p);
    }
    forall p | Under(p, dst) ensures CopiedSoFarAt(base, fs, src, dst, exclude, kids, todo - {c}, p) {
      CopyFileAt(base, fsB, fs, src, dst, exclude, kids, todo, c, name, p);
    }
  }

  /** `CopyFile` for one path inside `dst`. */
  lemma CopyFileAt(base: FileSystem, fsB: FileSystem, fs: FileSystem, src: string, dst: string,
                   exclude: seq<string>, kids: set<string>, todo: set<string>, c: string, name: string, p: string)
    requires WellFormed(base)
    requires c in todo && c in kids && ChildOf(c, src) && c == src + "/" + name
    requires Live(base, src, exclude, c) && !base[c].Dir?
    requires Under(p, dst) && CopiedSoFarAt(base, fsB, src, dst, exclude, kids, todo, p)
    requires fs == fsB[dst + "/" + name := base[c]]
    ensures CopiedSoFarAt(base, fs, src, dst, exclude, kids, todo - {c}, p)
  {
    var t := dst + "/" + name;
    var q := Rebase(p, dst, src);
    RebaseChild(c, src, dst, name);
    RebaseBack(c, src, dst);
    RebaseBack(p, dst, src);
    ChildIsStep(c, c, src);
    forall x | x in base && Under(x, c) ensures false {
      NothingUnderFile(base, c, x);
    }
    if p != t && Live(base, src, exclude, q) {
      StepTowardIsChild(q, src);
    }
  }

  /** The state after the recursive copy of a directory child `c = src/name`
      into `dst/name`, explained in terms of the loop. */
  lemma CopySubdir(base: FileSystem, fsB: FileSystem, fs: FileSystem, src: string, dst: string,
                   exclude: seq<string>, kids: set<string>, todo: set<string>, c: string, name: string)
    requires WellFormed(base) && Apart(src, dst, exclude)
    requires c in todo && c in kids && ChildOf(c, src) && c == src + "/" + name
    requires Live(base, src, exclude, c) && base[c].Dir?
    requires CopiedSoFar(base, fsB, src, dst, exclude, kids, todo)
    requires dst + "/" + name !in fsB
    requires Mirrored(fsB[dst + "/" + name := Dir], fs, c, dst + "/" + name, exclude)
    ensures CopiedSoFar(base, fs, src, dst, exclude, kids, todo - {c})
  {
    var t := dst + "/" + name;
    forall p | !Under(p, dst) ensures Kept(base, fs, p) {
      assert Kept(base, fsB, p);
      if Under(p, t) {
        RebaseThroughChild(p, dst, src, name);
      }
      assert Kept(fsB[t := Dir], fs, p);
    }
    forall p | Under(p, dst) ensures CopiedSoFarAt(base, fs, src, dst, exclude, kids, todo - {c}, p) {
      if Under(p, t) {
        CopyInside(base, fsB, fs, src, dst, exclude, kids, todo, c, name, p);
      } else {
        CopyBeside(base, fsB, fs, src, dst, exclude, kids, todo, c, name, p);
      }
    }
  }

  /** `CopySubdir` for the child's copy itself and for paths outside it. */
  lemma CopyBeside(base: FileSystem, fsB: FileSystem, fs: FileSystem, src: string, dst: string,
                   exclude: seq<string>, kids: set<string>, todo: set<string>, c: string, name: string, p: string)
    requires WellFormed(base)
    requires c in todo && c in kids && ChildOf(c, src) && c == src + "/" + name
    requires Live(base, src, exclude, c) && base[c].Dir?
    requires Under(p, dst) && CopiedSoFarAt(base, fsB, src, dst, exclude, kids, todo, p)
    requires dst + "/" + name !in fsB
    requires !Under(p, dst + "/" + name)
    requires Kept(fsB[dst + "/" + name := Dir], fs, p)
    ensures CopiedSoFarAt(base, fs, src, dst, exclude, kids, todo - {c}, p)
  {
    var t := dst + "/" + name;
    var q := Rebase(p, dst, src);
    RebaseChild(q, src, dst, name);
    RebaseChild(c, src, dst, name);
    RebaseBack(c, src, dst);
    RebaseBack(p, dst, src);
    ChildIsStep(c, c, src);
    if p != t && Live(base, src, exclude, q) {
      StepTowardIsChild(q, src);
    }
  }

  /** `CopySubdir` for a path inside the child's copy. */
  lemma CopyInside(base: FileSystem, fsB: FileSystem, fs: FileSystem, src: string, dst: string,
                   exclude: seq<string>, kids: set<string>, todo: set<string>, c: string, name: string, p: string)
    requires Apart(src, dst, exclude)
    requires c in todo && c in kids && ChildOf(c, src) && c == src + "/" + name
    requires CopiedSoFar(base, fsB, src, dst, exclude, kids, todo)
    requires Mirrored(fsB[dst + "/" + name := Dir], fs, c, dst + "/" + name, exclude)
    requires Under(p, dst + "/" + name)
    ensures Under(p, dst)
    ensures CopiedSoFarAt(base, fs, src, dst, exclude, kids, todo - {c}, p)
  {
    var t := dst + "/" + name;
    RebaseThroughChild(p, dst, src, name);
    var q := Rebase(p, dst, src);
    assert q == Rebase(p, t, c);
    ChildIsStep(q, c, src);
    assert CopiedAt(fsB[t := Dir], fs, c, t, exclude, p);
    assert (!AtOrUnder(q, dst) && !Under(dst, q)) || Excluded(q, exclude);
    if !Excluded(q, exclude) {
      assert !Under(q, dst) && q != t;
      assert Kept(base, fsB, q);
    }
  }

  /** The children of two apart directories are apart. */
  lemma ApartChild(src: string, dst: string, exclude: seq<string>, name: string)
    requires Apart(src, dst, exclude)
    ensures Apart(src + "/" + name, dst + "/" + name, exclude)
  {
    var c, t := src + "/" + name, dst + "/" + name;
    assert c[..|src| + 1] == src + "/";
    assert t[..|dst| + 1] == dst + "/";
    forall x | Under(x, c) ensures Under(x, src) { UnderTrans(x, c, src); }
    forall x | Under(x, t) ensures Under(x, dst) { UnderTrans(x, t, dst); }
    forall a | Under(t, a) ensures a == dst || Under(a, dst) || Under(dst, a) { AncestorsLinear(t, a, dst); }
  }

  /** The copy of a child not yet processed is still vacant. */
  lemma VacantChild(base: FileSystem, fsB: FileSystem, src: string, dst: string, exclude: seq<string>,
                    kids: set<string>, todo: set<string>, c: string, name: string)
    requires c in todo && ChildOf(c, src) && c == src + "/" + name
    requires CopiedSoFar(base, fsB, src, dst, exclude, kids, todo)
    requires forall p :: p in base ==> !Under(p, dst)
    ensures Vacant(fsB, dst + "/" + name)
  {
    var t := dst + "/" + name;
    assert t[..|dst| + 1] == dst + "/";
    forall p | AtOrUnder(p, t) ensures p !in fsB {
      if p != t { UnderTrans(p, t, dst); }
      var q := Rebase(p, dst, src);
      RebaseChild(p, dst, src, name);
      ChildIsStep(q, c, src);
      assert CopiedSoFarAt(base, fsB, src, dst, exclude, kids, todo, p);
    }
  }

  /** Inside a created destination, the directory for a new child can be
      created and a file for it written. */
  lemma MkdirChild(fs0: FileSystem, fsB: FileSystem, dst: string, name: string)
    requires MkdirOk(fs0, dst) && Canonical(dst) && Plain(name)
    requires forall p :: !Under(p, dst) ==> Kept(Mkdir(fs0, dst), fsB, p)
    requires dst + "/" + name !in fsB
    ensures MkdirOk(fsB, dst + "/" + name) && PutOk(fsB, dst + "/" + name)
    ensures Mkdir(fsB, dst + "/" + name) == fsB[dst + "/" + name := Dir]
  {
    var t := dst + "/" + name;
    ChildPath(dst, name);
    MkdirMade(fs0, dst);
    forall a | a in Ancestors(t) ensures IsDirIn(fsB, a) {
      assert a == dst || Under(dst, a);
      assert Kept(Mkdir(fs0, dst), fsB, a);
    }
    MkdirLeaf(fsB, t);
  }

  /** Creating a directory whose ancestors all exist adds just that directory. */
  lemma MkdirLeaf(fs: FileSystem, t: string)
    requires Canonical(t) && t !in fs
    requires forall a :: a in Ancestors(t) ==> IsDirIn(fs, a)
    ensures MkdirOk(fs, t) && PutOk(fs, t)
    ensures Mkdir(fs, t) == fs[t := Dir]
  {
    var added := map a | a in Ancestors(t) + {t} && a !in fs :: Dir;
    assert added.Keys == {t};
    assert added == map[t := Dir];
  }

  /** When the destination cannot be created, neither can anything inside it. */
  lemma MkdirBlocked(fs0: FileSystem, dst: string, name: string)
    requires Canonical(dst) && Plain(name) && !MkdirOk(fs0, dst) && dst !in fs0
    ensures !MkdirOk(fs0, dst + "/" + name) && !PutOk(fs0, dst + "/" + name)
  {
    ChildPath(dst, name);
  }

  /** While copying, the visited part of `src` is what it was before `dst` was created. */
  lemma LiveStable(fs0: FileSystem, fsB: FileSystem, src: string, dst: string, exclude: seq<string>)
    requires Apart(src, dst, exclude) && MkdirOk(fs0, dst)
    requires forall p :: !Under(p, dst) ==> Kept(Mkdir(fs0, dst), fsB, p)
    ensures forall q :: Under(q, src) && !Excluded(q, exclude) ==> Kept(fs0, fsB, q)
  {
    MkdirMade(fs0, dst);
    forall q | Under(q, src) && !Excluded(q, exclude) ensures Kept(fs0, fsB, q) {
      assert Kept(Mkdir(fs0, dst), fsB, q);
    }
  }

  /** The recursive copy of a visited child visits fewer entries. */
  lemma LiveShrinks(fs0: FileSystem, fsB: FileSystem, src: string, exclude: seq<string>, c: string)
    requires Live(fs0, src, exclude, c)
    requires forall q :: Under(q, src) && !Excluded(q, exclude) && q in fsB ==> q in fs0
    ensures |LiveSet(fsB, c, exclude)| < |LiveSet(fs0, src, exclude)|
  {
    forall q | q in LiveSet(fsB, c, exclude) ensures q in LiveSet(fs0, src, exclude) - {c} {
      UnderTrans(q, c, src);
    }
    SubsetSmaller(LiveSet(fsB, c, exclude), LiveSet(fs0, src, exclude), c);
  }

  /** Creating an empty destination puts nothing inside it. */
  lemma MkdirFills(fs0: FileSystem, dst: string)
    requires Vacant(fs0, dst)
    ensures forall p :: p in Mkdir(fs0, dst) ==> !Under(p, dst)
  {
    if MkdirOk(fs0, dst) {
      MkdirMade(fs0, dst);
    }
  }

  /** Inside an empty destination, every child's place is empty too. */
  lemma VacantInside(fs: FileSystem, dst: string, name: string)
    requires Vacant(fs, dst)
    ensures Vacant(fs, dst + "/" + name)
  {
    var t := dst + "/" + name;
    assert t[..|dst| + 1] == dst + "/";
    forall p | Under(p, t) ensures Under(p, dst) { UnderTrans(p, t, dst); }
  }
}
