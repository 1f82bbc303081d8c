/** The WordPress host the plugin runs in: the filesystem, the option and
    transient store, and the clock. Every PHP or WordPress built-in the plugin
    calls on them (`wp_mkdir_p`, `file_put_contents`, `copy`, `unlink`,
    `rmdir`, `get_option`, `current_time`) is a member here. */
module Host {
  import opened Paths
  import opened Php

  type Bytes = seq<bv8>

  /** One member of a ZIP archive: its name inside the archive and what is
      stored under it (`Dir` for an empty directory, or a file's entry). */
  datatype ZipEntry = ZipEntry(name: string, node: Node)

  /** A filesystem entry. A ZIP archive is a file known by its members. */
  datatype Node = File(content: Bytes) | Dir | Archive(entries: seq<ZipEntry>)

  /** A filesystem maps canonical absolute paths to entries. */
  type FileSystem = map<string, Node>

  /** An admin notice as stored in the `static_shield_admin_notices` transient. */
  datatype Notice = Notice(message: string, kind: string)

  /** What `get_transient` finds: nothing (missing or expired), a value that is
      not an array, or a list of notices. */
  datatype Transient = NoTransient | NotAList | NoticeList(items: seq<Notice>)

  /** Every path is canonical and every ancestor of an entry is a directory entry. */
  ghost predicate WellFormed(fs: FileSystem) {
    && (forall p :: p in fs ==> Canonical(p))
    && (forall p, a :: p in fs && a in Ancestors(p) ==> a in fs && fs[a].Dir?)
  }

  predicate IsDirIn(fs: FileSystem, p: string) {
    p in fs && fs[p].Dir?
  }

  /** The entries strictly inside `d`. */
  ghost function Sub(fs: FileSystem, d: string): set<string> {
    set q | q in fs && Under(q, d)
  }

  /** `wp_mkdir_p` succeeds: the target and all its existing ancestors are directories. */
  predicate MkdirOk(fs: FileSystem, p: string) {
    && Canonical(p)
    && (p in fs ==> fs[p].Dir?)
    && (forall a :: a in Ancestors(p) && a in fs ==> fs[a].Dir?)
  }

  /** The filesystem after `wp_mkdir_p(p)`: the missing ancestors and `p` become directories. */
  function Mkdir(fs: FileSystem, p: string): FileSystem {
    if MkdirOk(fs, p) then AddDirs(fs, Ancestors(p) + {p}) else fs
  }

  /** `fs` with the paths of `added` that are missing made into directories. */
  function AddDirs(fs: FileSystem, added: set<string>): FileSystem {
    fs + map a | a in added && a !in fs :: Dir
  }

  /** Writing a file at `p` succeeds: its parent directory exists and `p` is not a directory. */
  predicate PutOk(fs: FileSystem, p: string) {
    && Canonical(p)
    && (forall a :: a in Ancestors(p) ==> a in fs && fs[a].Dir?)
    && !IsDirIn(fs, p)
  }

  /** Removing `dir` recursively leaves behind exactly the entries it may not
      delete and the directories that still hold such an entry. */
  ghost predicate Survives(fs: FileSystem, denied: set<string>, q: string) {
    q in denied || (IsDirIn(fs, q) && exists d :: d in fs && Under(d, q) && d in denied)
  }

  lemma AncestorIsDir(fs: FileSystem, p: string, i: nat)
    requires WellFormed(fs) && p in fs && 0 < i < |p| && p[i] == '/'
    ensures IsDirIn(fs, p[..i])
  {
    assert p[..i] in Ancestors(p);
  }

  /** Nothing lies inside a file. */
  lemma NothingUnderFile(fs: FileSystem, f: string, q: string)
    requires WellFormed(fs) && f in fs && !fs[f].Dir? && Under(q, f)
    ensures q !in fs
  {
    if q in fs {
      assert q[|f|] == '/' && q[..|f|] == f;
      AncestorIsDir(fs, q, |f|);
    }
  }

  lemma MkdirWellFormed(fs: FileSystem, p: string)
    requires WellFormed(fs)
    ensures WellFormed(Mkdir(fs, p))
    ensures MkdirOk(fs, p) ==> IsDirIn(Mkdir(fs, p), p)
    ensures MkdirOk(fs, p) ==> forall a :: a in Ancestors(p) ==> IsDirIn(Mkdir(fs, p), a)
    ensures forall q :: q in fs ==> q in Mkdir(fs, p) && Mkdir(fs, p)[q] == fs[q]
    ensures forall q :: q in Mkdir(fs, p) && q !in fs ==> q == p || q in Ancestors(p)
  {
    if MkdirOk(fs, p) {
      MkdirKeepsWellFormed(fs, p);
    }
  }

  lemma MkdirKeepsWellFormed(fs: FileSystem, p: string)
    requires WellFormed(fs) && MkdirOk(fs, p)
    ensures WellFormed(Mkdir(fs, p))
  {
    var added := Ancestors(p) + {p};
    forall a | a in added ensures Canonical(a) && (a in fs ==> fs[a].Dir?) {
      if a != p {
        var i :| 0 < i < |p| && p[i] == '/' && a == p[..i];
        AncestorCanonical(p, i);
      }
    }
    forall a, b | a in added && b in Ancestors(a) ensures b in added || IsDirIn(fs, b) {
      if a != p {
        AncestorsOfAncestor(p, a);
      }
    }
    AddDirsWellFormed(fs, added);
  }

  /** Adding directories whose ancestors are all there keeps a filesystem well formed. */
  lemma AddDirsWellFormed(fs: FileSystem, added: set<string>)
    requires WellFormed(fs)
    requires forall a :: a in added ==> Canonical(a) && (a in fs ==> fs[a].Dir?)
    requires forall a, b :: a in added && b in Ancestors(a) ==> b in added || IsDirIn(fs, b)
    ensures WellFormed(AddDirs(fs, added))
  {
    var fs' := AddDirs(fs, added);
    assert forall q :: q in fs' <==> q in fs || q in added;
    assert forall q :: q in fs' ==> fs'[q] == if q in fs then fs[q] else Dir;
    forall q, b | q in fs' && b in Ancestors(q) ensures b in fs' && fs'[b].Dir? {
      if q in fs {
        assert b in fs && fs[b].Dir?;
      }
    }
  }

  lemma PutWellFormed(fs: FileSystem, p: string, n: Node)
    requires WellFormed(fs) && PutOk(fs, p) && !n.Dir?
    ensures WellFormed(fs[p := n])
  {
    var fs' := fs[p := n];
    forall q, a | q in fs' && a in Ancestors(q) ensures a in fs' && fs'[a].Dir? {
      if q != p {
        assert a in fs && fs[a].Dir?;
        assert a != p;
      }
    }
  }

  lemma RemoveWellFormed(fs: FileSystem, p: string)
    requires WellFormed(fs) && p in fs
    requires forall q :: q in fs ==> !Under(q, p)
    ensures WellFormed(fs - {p})
  {
    forall q, a | q in fs - {p} && a in Ancestors(q) ensures a in fs - {p} && (fs - {p})[a].Dir? {
      assert Under(q, a);
    }
  }

  /** A proper subset of a finite set is smaller. */
  lemma SubsetSmaller<T>(a: set<T>, b: set<T>, x: T)
    requires a <= b - {x} && x in b
    ensures |a| < |b|
  {
    assert |b - {x}| == |b| - 1;
    SubsetCard(a, b - {x});
  }

  lemma {:induction false} SubsetCard<T>(a: set<T>, b: set<T>)
    requires a <= b
    ensures |a| <= |b|
    decreases |b|
  {
    if a != {} {
      var x :| x in a;
      SubsetCard(a - {x}, b - {x});
    }
  }

  /** Every entry inside `d` is reached from one of `d`'s children. */
  lemma StepIsEntry(fs: FileSystem, q: string, d: string)
    requires WellFormed(fs) && q in fs && Under(q, d)
    ensures StepToward(q, d) in fs && ChildOf(StepToward(q, d), d)
    ensures AtOrUnder(q, StepToward(q, d))
  {
    StepTowardIsChild(q, d);
  }

  /** An entry survives a recursive removal of `dir` exactly when something
      inside it may not be removed, or it may not be removed itself. */
  lemma SurvivorInside(fs: FileSystem, denied: set<string>, dir: string)
    ensures (exists q :: q in fs && Under(q, dir) && Survives(fs, denied, q))
        <==> (exists d :: d in fs && Under(d, dir) && d in denied)
  {
    if exists q :: q in fs && Under(q, dir) && Survives(fs, denied, q) {
      var q :| q in fs && Under(q, dir) && Survives(fs, denied, q);
      if q !in denied {
        var d :| d in fs && Under(d, q) && d in denied;
        UnderTrans(d, q, dir);
      }
    }
  }

  /** Survival of an entry only depends on the entries at or inside it. */
  lemma SurvivesAgree(fs: FileSystem, fs0: FileSystem, denied: set<string>, q: string, c: string)
    requires AtOrUnder(q, c)
    requires forall x :: AtOrUnder(x, c) ==> (x in fs <==> x in fs0)
    requires forall x :: AtOrUnder(x, c) && x in fs ==> fs[x] == fs0[x]
    ensures Survives(fs, denied, q) == Survives(fs0, denied, q)
  {
    forall d | Under(d, q) ensures AtOrUnder(d, c) {
      if q != c { UnderTrans(d, q, c); }
    }
  }

  class Host {
    /** The filesystem. */
    var fs: FileSystem
    /** The `static_shield_last_log` option: the activity log. */
    var lastLog: seq<string>
    /** The `static_shield_admin_notices` transient. */
    var notices: Transient
    /** Every other option, by name. */
    var options: map<string, string>
    /** How many times the clock has been read. */
    var tick: nat
    /** What `current_time('mysql')` returns on its n-th call. */
    const clock: nat -> string
    /** The paths the PHP process is not allowed to delete. */
    const denied: set<string>

    ghost predicate Valid()
      reads this`fs
    {
      WellFormed(fs)
    }

    constructor (fs0: FileSystem, log0: seq<string>, options0: map<string, string>,
                 clock0: nat -> string, denied0: set<string>)
      requires WellFormed(fs0)
      ensures Valid()
      ensures fs == fs0 && lastLog == log0 && options == options0 && clock == clock0 && denied == denied0
      ensures notices == NoTransient && tick == 0
    {
      fs, lastLog, options, clock, denied := fs0, log0, options0, clock0, denied0;
      notices, tick := NoTransient, 0;
    }

    /** `get_option($name)`: the stored string, or `false` when the option is missing. */
    function GetOption(name: string): (v: OptVal)
      reads this`options
      ensures v.Str? <==> name in options
      ensures v.Str? ==> v.s == options[name]
    {
      if name in options then Str(options[name]) else Missing
    }

    /** `delete_option($name)`. */
    method DeleteOption(name: string)
      modifies this`options
      ensures options == old(options) - {name}
    {
      options := options - {name};
    }

    predicate IsDir(p: string)
      reads this
    {
      IsDirIn(fs, p)
    }

    predicate FileExists(p: string)
      reads this
    {
      p in fs
    }

    /** `current_time('mysql')`. */
    method CurrentTime() returns (t: string)
      modifies this`tick
      ensures t == clock(old(tick)) && tick == old(tick) + 1
    {
      t := clock(tick);
      tick := tick + 1;
    }

    /** `wp_mkdir_p($p)`. */
    method MkdirP(p: string) returns (ok: bool)
      requires Valid()
      modifies this`fs
      ensures Valid()
      ensures ok == MkdirOk(old(fs), p) && fs == Mkdir(old(fs), p)
    {
      MkdirWellFormed(fs, p);
      ok := MkdirOk(fs, p);
      fs := Mkdir(fs, p);
    }

    /** `file_put_contents($p, ...)`, `copy(..., $p)` and the archive write of
        `ZipArchive::close`: replaces or creates the file `p` when its parent exists. */
    method Put(p: string, n: Node) returns (ok: bool)
      requires Valid() && !n.Dir?
      modifies this`fs
      ensures Valid()
      ensures ok == PutOk(old(fs), p)
      ensures fs == if ok then old(fs)[p := n] else old(fs)
    {
      ok := PutOk(fs, p);
      if ok {
        PutWellFormed(fs, p, n);
        fs := fs[p := n];
      }
    }

    /** `copy($from, $to)`: copies a file (or archive) to a writable place. */
    method CopyFile(from: string, to: string) returns (ok: bool)
      requires Valid()
      modifies this`fs
      ensures Valid()
      ensures ok == (from in old(fs) && !old(fs)[from].Dir? && PutOk(old(fs), to))
      ensures fs == if ok then old(fs)[to := old(fs)[from]] else old(fs)
    {
      ok := from in fs && !fs[from].Dir? && PutOk(fs, to);
      if ok {
        PutWellFormed(fs, to, fs[from]);
        fs := fs[to := fs[from]];
      }
    }

    /** `unlink($p)`: removes a file; fails on a directory, a missing path or a
        path the process may not delete. */
    method Unlink(p: string) returns (ok: bool)
      requires Valid()
      modifies this`fs
      ensures Valid()
      ensures ok == (p in old(fs) && !old(fs)[p].Dir? && p !in denied)
      ensures fs == if ok then old(fs) - {p} else old(fs)
    {
      ok := p in fs && !fs[p].Dir? && p !in denied;
      if ok {
        forall q | q in fs ensures !Under(q, p) {
          if Under(q, p) { NothingUnderFile(fs, p, q); }
        }
        RemoveWellFormed(fs, p);
        fs := fs - {p};
      }
    }

    /** `rmdir($p)`: removes an empty directory the process may delete. */
    method Rmdir(p: string) returns (ok: bool)
      requires Valid()
      modifies this`fs
      ensures Valid()
      ensures ok == (IsDirIn(old(fs), p) && p !in denied && forall q :: q in old(fs) ==> !Under(q, p))
      ensures fs == if ok then old(fs) - {p} else old(fs)
    {
      ok := IsDirIn(fs, p) && p !in denied && forall q :: q in fs ==> !Under(q, p);
      if ok {
        RemoveWellFormed(fs, p);
        fs := fs - {p};
      }
    }

    /** The recursive delete shared by the exporter's `rrmdir` and the
        uninstaller's `static_shield_remove_directory`: list the children,
        recurse into directories, unlink files, then `rmdir` the directory.
        Failed deletions (paths in `denied`) do not stop the traversal. */
    method RemoveTree(dir: string)
      requires Valid() && IsDir(dir)
      modifies this`fs
      ensures Valid()
      ensures TreeRemoved(old(fs), fs, denied, dir)
      decreases |Sub(fs, dir)|
    {
      ghost var fs0 := fs;
      var todo := set c | c in fs && ChildOf(c, dir);
      ghost var kids := todo;
      while todo != {}
        invariant Valid()
        invariant todo <= kids
        invariant forall c :: c in kids ==> c in fs0 && ChildOf(c, dir)
        invariant RemovedSoFar(fs, fs0, denied, dir, kids, todo)
        decreases |todo|
      {
        var c :| c in todo;
        ChildIsStep(c, c, dir);
        ghost var fsBefore := fs;
        if IsDir(c) {
          SubShrinks(fs, fs0, denied, dir, c, kids, todo);
          RemoveTree(c);
        } else {
          var _ := Unlink(c);
        }
        RemoveStep(fsBefore, fs, fs0, denied, dir, c, kids, todo);
        todo := todo - {c};
      }
      ghost var fsLoop := fs;
      RemoveFinish(fs, fs0, denied, dir, kids);
      var ok := Rmdir(dir);
      RemoveLast(fsLoop, fs, fs0, denied, dir, ok);
    }

    /** `RecursiveIteratorIterator` over a `RecursiveDirectoryIterator` in
        `SELF_FIRST` mode, skipping dots: every entry inside `dir` exactly
        once, each directory before what it holds. The order among siblings
        is the directory's own and is left open. */
    method Walk(dir: string) returns (paths: seq<string>)
      requires Valid() && IsDir(dir)
      ensures Listed(fs, dir, paths)
      decreases |Sub(fs, dir)|
    {
      var todo := set c | c in fs && ChildOf(c, dir);
      ghost var kids := todo;
      paths := [];
      while todo != {}
        invariant todo <= kids
        invariant forall c :: c in kids ==> c in fs && ChildOf(c, dir)
        invariant WalkedSoFar(fs, dir, kids, todo, paths)
        decreases |todo|
      {
        var c :| c in todo;
        var sub := [];
        if IsDir(c) {
          SubOfChild(fs, dir, c);
          sub := Walk(c);
        }
        WalkStep(fs, dir, kids, todo, paths, c, sub);
        paths := paths + [c] + sub;
        todo := todo - {c};
      }
      WalkFinish(fs, dir, kids, paths);
    }
  }

  /** After every child of `dir` is processed, `dir` can be removed exactly
      when it does not survive, and the loop invariant becomes the postcondition. */
  lemma RemoveFinish(fs: FileSystem, fs0: FileSystem, denied: set<string>, dir: string, kids: set<string>)
    requires WellFormed(fs0) && IsDirIn(fs0, dir)
    requires forall c :: c in fs0 && ChildOf(c, dir) ==> c in kids
    requires RemovedSoFar(fs, fs0, denied, dir, kids, {})
    ensures IsDirIn(fs, dir) && fs[dir] == fs0[dir]
    ensures forall q :: q in fs ==> fs[q] == fs0[q]
    ensures forall q :: !AtOrUnder(q, dir) ==> (q in fs <==> q in fs0)
    ensures (dir !in denied && forall q :: q in fs ==> !Under(q, dir)) == !Survives(fs0, denied, dir)
    ensures forall q :: Under(q, dir) ==> (q in fs <==> q in fs0 && Survives(fs0, denied, q))
  {
    forall q | q in fs0 && Under(q, dir) ensures StepToward(q, dir) in kids {
      StepIsEntry(fs0, q, dir);
    }
    SurvivorInside(fs0, denied, dir);
  }

  /** The result of removing `dir` recursively from `fs0`: exactly the
      surviving entries at or inside `dir` are left, all else is untouched. */
  ghost predicate TreeRemoved(fs0: FileSystem, fs: FileSystem, denied: set<string>, dir: string) {
    && (forall q :: q in fs <==> q in fs0 && (AtOrUnder(q, dir) ==> Survives(fs0, denied, q)))
    && (forall q :: q in fs ==> fs[q] == fs0[q])
  }

  /** The recursive call of `RemoveTree` on an unprocessed child works on a smaller tree. */
  lemma SubShrinks(fs: FileSystem, fs0: FileSystem, denied: set<string>, dir: string, c: string,
                   kids: set<string>, todo: set<string>)
    requires RemovedSoFar(fs, fs0, denied, dir, kids, todo)
    requires c in fs0 && ChildOf(c, dir)
    ensures |Sub(fs, c)| < |Sub(fs0, dir)|
  {
    forall q | q in Sub(fs, c) ensures q in Sub(fs0, dir) - {c} {
      UnderChild(q, c, dir);
    }
    SubsetSmaller(Sub(fs, c), Sub(fs0, dir), c);
  }

  /** The final `rmdir` turns the loop's result into `RemoveTree`'s postcondition. */
  lemma RemoveLast(fsLoop: FileSystem, fs: FileSystem, fs0: FileSystem, denied: set<string>, dir: string, ok: bool)
    requires IsDirIn(fs0, dir) && IsDirIn(fsLoop, dir)
    requires forall q :: q in fsLoop ==> q in fs0 && fsLoop[q] == fs0[q]
    requires forall q :: !AtOrUnder(q, dir) ==> (q in fsLoop <==> q in fs0)
    requires forall q :: Under(q, dir) ==> (q in fsLoop <==> q in fs0 && Survives(fs0, denied, q))
    requires ok == !Survives(fs0, denied, dir)
    requires fs == if ok then fsLoop - {dir} else fsLoop
    ensures TreeRemoved(fs0, fs, denied, dir)
  {
  }

  /** `q` lies inside a child of `dir` that `RemoveTree` has already processed. */
  ghost predicate Done(q: string, dir: string, kids: set<string>, todo: set<string>)
    requires Under(q, dir)
  {
    StepToward(q, dir) in kids && StepToward(q, dir) !in todo
  }

  /** The loop invariant of `RemoveTree`: the subtrees of the children in
      `kids - todo` are reduced to their survivors, nothing else has changed. */
  ghost predicate RemovedSoFar(fs: FileSystem, fs0: FileSystem, denied: set<string>, dir: string,
                               kids: set<string>, todo: set<string>) {
    && (forall q :: q in fs <==> q in fs0 && (Under(q, dir) && Done(q, dir, kids, todo) ==> Survives(fs0, denied, q)))
    && (forall q :: q in fs ==> fs[q] == fs0[q])
  }

  /** One iteration of `RemoveTree`'s loop extends its invariant from `done - {c}` to `done`. */
  lemma RemoveStep(fsBefore: FileSystem, fs: FileSystem, fs0: FileSystem, denied: set<string>,
                   dir: string, c: string, kids: set<string>, todo: set<string>)
    requires WellFormed(fs0) && WellFormed(fsBefore)
    requires c in todo && c in kids && c in fs0 && ChildOf(c, dir) && StepToward(c, dir) == c
    requires RemovedSoFar(fsBefore, fs0, denied, dir, kids, todo)
    requires IsDirIn(fsBefore, c) ==> TreeRemoved(fsBefore, fs, denied, c)
    requires !IsDirIn(fsBefore, c) ==>
      fs == if c in fsBefore && c !in denied then fsBefore - {c} else fsBefore
    ensures RemovedSoFar(fs, fs0, denied, dir, kids, todo - {c})
  {
    forall x | AtOrUnder(x, c) ensures x in fsBefore <==> x in fs0 {
      ChildIsStep(x, c, dir);
    }
    forall q ensures q in fs <==> q in fs0 && (Under(q, dir) && Done(q, dir, kids, todo - {c}) ==> Survives(fs0, denied, q)) {
      if AtOrUnder(q, c) {
        StepInside(fsBefore, fs, fs0, denied, dir, c, kids, todo, q);
      } else {
        StepOutside(fsBefore, fs, fs0, denied, dir, c, kids, todo, q);
      }
    }
  }

  /** `RemoveStep` for an entry at or inside the child `c` just processed. */
  lemma StepInside(fsBefore: FileSystem, fs: FileSystem, fs0: FileSystem, denied: set<string>,
                   dir: string, c: string, kids: set<string>, todo: set<string>, q: string)
    requires WellFormed(fs0) && WellFormed(fsBefore)
    requires c in todo && c in kids && c in fs0 && ChildOf(c, dir) && StepToward(c, dir) == c
    requires RemovedSoFar(fsBefore, fs0, denied, dir, kids, todo)
    requires forall x :: AtOrUnder(x, c) ==> (x in fsBefore <==> x in fs0)
    requires IsDirIn(fsBefore, c) ==> TreeRemoved(fsBefore, fs, denied, c)
    requires !IsDirIn(fsBefore, c) ==>
      fs == if c in fsBefore && c !in denied then fsBefore - {c} else fsBefore
    requires AtOrUnder(q, c)
    ensures q in fs <==> q in fs0 && (Under(q, dir) && Done(q, dir, kids, todo - {c}) ==> Survives(fs0, denied, q))
  {
    ChildIsStep(q, c, dir);
    if IsDirIn(fsBefore, c) {
      SurvivesAgree(fsBefore, fs0, denied, q, c);
    } else if q != c {
      if q in fs0 { NothingUnderFile(fs0, c, q); }
    }
  }

  /** `RemoveStep` for an entry outside the child `c` just processed. */
  lemma StepOutside(fsBefore: FileSystem, fs: FileSystem, fs0: FileSystem, denied: set<string>,
                    dir: string, c: string, kids: set<string>, todo: set<string>, q: string)
    requires c in todo && ChildOf(c, dir) && StepToward(c, dir) == c
    requires RemovedSoFar(fsBefore, fs0, denied, dir, kids, todo)
    requires IsDirIn(fsBefore, c) ==> TreeRemoved(fsBefore, fs, denied, c)
    requires !IsDirIn(fsBefore, c) ==>
      fs == if c in fsBefore && c !in denied then fsBefore - {c} else fsBefore
    requires !AtOrUnder(q, c)
    ensures q in fs <==> q in fs0 && (Under(q, dir) && Done(q, dir, kids, todo - {c}) ==> Survives(fs0, denied, q))
  {
    if Under(q, dir) && StepToward(q, dir) == c {
      StepTowardIsChild(q, dir);
    }
  }

  /** No path occurs twice. */
  ghost predicate Distinct(s: seq<string>) {
    forall i, j :: 0 <= i < j < |s| ==> s[i] != s[j]
  }

  /** Whatever lies inside another listed path comes after it. */
  ghost predicate ParentsFirst(s: seq<string>) {
    forall i, j :: 0 <= i < |s| && 0 <= j < |s| && Under(s[j], s[i]) ==> i < j
  }

  /** `s` lists the entries inside `dir`, each once, directories first. */
  ghost predicate Listed(fs: FileSystem, dir: string, s: seq<string>) {
    && (forall i :: 0 <= i < |s| ==> s[i] in fs && Under(s[i], dir))
    && (forall q :: q in fs && Under(q, dir) ==> q in s)
    && Distinct(s)
    && ParentsFirst(s)
  }

  /** The loop invariant of `Walk`: the subtrees of the children in
      `kids - todo` are listed. */
  ghost predicate WalkedSoFar(fs: FileSystem, dir: string, kids: set<string>, todo: set<string>, s: seq<string>) {
    && (forall i :: 0 <= i < |s| ==> s[i] in fs && Under(s[i], dir) && Done(s[i], dir, kids, todo))
    && (forall q :: q in fs && Under(q, dir) && Done(q, dir, kids, todo) ==> q in s)
    && Distinct(s)
    && ParentsFirst(s)
  }

  /** A child's subtree is smaller than its parent's. */
  lemma SubOfChild(fs: FileSystem, dir: string, c: string)
    requires c in fs && ChildOf(c, dir)
    ensures |Sub(fs, c)| < |Sub(fs, dir)|
  {
    forall q | q in Sub(fs, c) ensures q in Sub(fs, dir) - {c} {
      UnderChild(q, c, dir);
    }
    SubsetSmaller(Sub(fs, c), Sub(fs, dir), c);
  }

  /** What the loop of `Walk` appends for the child `c`: `c` and its listing. */
  ghost predicate ChildListing(fs: FileSystem, c: string, sub: seq<string>) {
    if IsDirIn(fs, c) then Listed(fs, c, sub) else sub == []
  }

  /** Where the paths listed before and the paths appended for `c` lie. */
  lemma Appended(fs: FileSystem, dir: string, kids: set<string>, todo: set<string>,
                 s: seq<string>, c: string, sub: seq<string>)
    requires c in todo && ChildOf(c, dir)
    requires WalkedSoFar(fs, dir, kids, todo, s)
    requires ChildListing(fs, c, sub)
    ensures Under(c, dir) && StepToward(c, dir) == c
    ensures forall k :: 0 <= k < |s| ==> !AtOrUnder(s[k], c)
    ensures forall k :: 0 <= k < |sub| ==> sub[k] in fs && Under(sub[k], c)
    ensures forall k :: 0 <= k < |sub| ==> Under(sub[k], dir) && StepToward(sub[k], dir) == c
  {
    ChildIsStep(c, c, dir);
    forall k | 0 <= k < |s| ensures !AtOrUnder(s[k], c) {
      StepAway(s[k], c, dir);
    }
    forall k | 0 <= k < |sub| ensures Under(sub[k], dir) && StepToward(sub[k], dir) == c {
      ChildIsStep(sub[k], c, dir);
    }
  }

  /** A path whose step toward `dir` is not the child `c` is not at or inside `c`. */
  lemma StepAway(x: string, c: string, dir: string)
    requires ChildOf(c, dir) && Under(x, dir)
    ensures StepToward(x, dir) != c ==> !AtOrUnder(x, c)
  {
    if AtOrUnder(x, c) {
      ChildIsStep(x, c, dir);
    }
  }

  /** One iteration of `Walk`'s loop: appending `c` and its listing keeps the invariant. */
  lemma WalkStep(fs: FileSystem, dir: string, kids: set<string>, todo: set<string>,
                 s: seq<string>, c: string, sub: seq<string>)
    requires WellFormed(fs)
    requires todo <= kids && c in todo
    requires forall k :: k in kids ==> k in fs && ChildOf(k, dir)
    requires WalkedSoFar(fs, dir, kids, todo, s)
    requires ChildListing(fs, c, sub)
    ensures WalkedSoFar(fs, dir, kids, todo - {c}, s + [c] + sub)
  {
    Appended(fs, dir, kids, todo, s, c, sub);
    WalkMembers(fs, dir, kids, todo, s, c, sub);
    WalkComplete(fs, dir, kids, todo, s, c, sub);
    WalkDistinct(s, c, sub);
    WalkOrder(s, c, sub);
  }

  /** The appended paths are entries inside `dir` whose child is now done. */
  lemma WalkMembers(fs: FileSystem, dir: string, kids: set<string>, todo: set<string>,
                    s: seq<string>, c: string, sub: seq<string>)
    requires c in todo && c in kids && c in fs
    requires Under(c, dir) && StepToward(c, dir) == c
    requires WalkedSoFar(fs, dir, kids, todo, s)
    requires forall k :: 0 <= k < |sub| ==> sub[k] in fs && Under(sub[k], dir) && StepToward(sub[k], dir) == c
    ensures forall i :: 0 <= i < |s + [c] + sub| ==>
      (s + [c] + sub)[i] in fs && Under((s + [c] + sub)[i], dir) && Done((s + [c] + sub)[i], dir, kids, todo - {c})
  {
    var t := s + [c] + sub;
    forall i | 0 <= i < |t| ensures t[i] in fs && Under(t[i], dir) && Done(t[i], dir, kids, todo - {c}) {
      if i > |s| { assert t[i] == sub[i - |s| - 1]; }
    }
  }

  /** Every entry whose child is now done is listed. */
  lemma WalkComplete(fs: FileSystem, dir: string, kids: set<string>, todo: set<string>,
                     s: seq<string>, c: string, sub: seq<string>)
    requires WellFormed(fs)
    requires c in todo && c in fs && ChildOf(c, dir)
    requires WalkedSoFar(fs, dir, kids, todo, s)
    requires ChildListing(fs, c, sub)
    ensures forall q :: q in fs && Under(q, dir) && Done(q, dir, kids, todo - {c}) ==> q in s + [c] + sub
  {
    forall q | q in fs && Under(q, dir) && Done(q, dir, kids, todo - {c}) ensures q in s + [c] + sub {
      if StepToward(q, dir) == c {
        StepTowardIsChild(q, dir);
        if q != c {
          if !IsDirIn(fs, c) { NothingUnderFile(fs, c, q); }
          assert q in sub;
        }
      } else {
        assert q in s;
      }
    }
  }

  /** Appending keeps the list free of repetitions. */
  lemma WalkDistinct(s: seq<string>, c: string, sub: seq<string>)
    requires Distinct(s) && Distinct(sub)
    requires forall k :: 0 <= k < |s| ==> !AtOrUnder(s[k], c)
    requires forall k :: 0 <= k < |sub| ==> Under(sub[k], c)
    ensures Distinct(s + [c] + sub)
  {
    var t, n := s + [c] + sub, |s|;
    forall k | n <= k < |t| ensures AtOrUnder(t[k], c) && (k > n ==> t[k] == sub[k - n - 1] && Under(t[k], c)) {
    }
    forall i, j | 0 <= i < j < |t| ensures t[i] != t[j] {
      if i > n {
        assert t[i] == sub[i - n - 1] && t[j] == sub[j - n - 1];
      }
    }
  }

  /** `x` inside `y` inside or at `c` is inside `c`. */
  lemma UnderAtOrUnder(x: string, y: string, c: string)
    ensures Under(x, y) && AtOrUnder(y, c) ==> Under(x, c)
  {
    if Under(x, y) && Under(y, c) { UnderTrans(x, y, c); }
  }

  /** Appending keeps every directory ahead of what it holds. */
  lemma WalkOrder(s: seq<string>, c: string, sub: seq<string>)
    requires ParentsFirst(s) && ParentsFirst(sub)
    requires forall k :: 0 <= k < |s| ==> !AtOrUnder(s[k], c)
    requires forall k :: 0 <= k < |sub| ==> Under(sub[k], c)
    ensures ParentsFirst(s + [c] + sub)
  {
    var t, n := s + [c] + sub, |s|;
    forall k | n <= k < |t| ensures AtOrUnder(t[k], c) && (k > n ==> t[k] == sub[k - n - 1] && Under(t[k], c)) {
    }
    forall i, j | 0 <= i < |t| && 0 <= j < |t| && Under(t[j], t[i]) ensures i < j {
      UnderAtOrUnder(t[j], t[i], c);
      if i > n && j > n {
        assert t[i] == sub[i - n - 1] && t[j] == sub[j - n - 1];
      }
    }
  }

  /** With every child processed, the loop invariant of `Walk` is its postcondition. */
  lemma WalkFinish(fs: FileSystem, dir: string, kids: set<string>, s: seq<string>)
    requires WellFormed(fs)
    requires forall c :: c in fs && ChildOf(c, dir) ==> c in kids
    requires WalkedSoFar(fs, dir, kids, {}, s)
    ensures Listed(fs, dir, s)
  {
    forall q | q in fs && Under(q, dir) ensures q in s {
      StepIsEntry(fs, q, dir);
    }
  }
}
