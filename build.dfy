/** The build directory's life cycle around the copies: how `prepareBuildDir`
    clears it, how the ZIP archive records it, and why the copies into it
    never meet. */
module Build {
  import opened Paths
  import opened Host
  import opened Copying

  /** `unlink($p)` as a function of the filesystem: only a file the process
      may delete goes. */
  function Unlinked(fs: FileSystem, p: string, denied: set<string>): FileSystem {
    if p in fs && !fs[p].Dir? && p !in denied then fs - {p} else fs
  }

  /** `prepareBuildDir`, given what `rrmdir` left (`cleared`): the build
      directory is recreated and the stale archive unlinked. `rrmdir` only
      runs on a directory. */
  ghost predicate Prepared(fs0: FileSystem, cleared: FileSystem, fs: FileSystem,
                           buildDir: string, zipPath: string, denied: set<string>) {
    && (if IsDirIn(fs0, buildDir) then TreeRemoved(fs0, cleared, denied, buildDir) else cleared == fs0)
    && fs == Unlinked(Mkdir(cleared, buildDir), zipPath, denied)
  }

  /** When every entry inside the build directory may be deleted and the
      archive is not inside it, preparing leaves the build directory existing
      and empty exactly when `wp_mkdir_p` could create it, leaves no file at
      the archive's path (unless it may not be deleted), and changes nothing
      else but the build directory's ancestors. */
  lemma PreparedClean(fs0: FileSystem, cleared: FileSystem, fs: FileSystem,
                      buildDir: string, zipPath: string, denied: set<string>)
    requires WellFormed(fs0) && Canonical(buildDir)
    requires forall q :: q in fs0 && Under(q, buildDir) ==> q !in denied
    requires !AtOrUnder(zipPath, buildDir)
    requires Prepared(fs0, cleared, fs, buildDir, zipPath, denied)
    ensures IsDirIn(fs, buildDir) <==> MkdirOk(fs0, buildDir)
    ensures forall q :: q in fs ==> !Under(q, buildDir)
    ensures zipPath !in denied ==> zipPath !in fs || fs[zipPath].Dir?
    ensures forall q :: q != zipPath && !AtOrUnder(q, buildDir) && q !in Ancestors(buildDir) ==>
      (q in fs <==> q in fs0) && (q in fs ==> fs[q] == fs0[q])
  {
    ClearedEmpty(fs0, cleared, buildDir, denied);
    ClearedMkdirOk(fs0, cleared, buildDir, denied);
    if MkdirOk(cleared, buildDir) {
      MkdirMade(cleared, buildDir);
    }
  }

  /** What `rrmdir` leaves of the build directory: nothing inside it, and all
      else as before. */
  lemma ClearedEmpty(fs0: FileSystem, cleared: FileSystem, buildDir: string, denied: set<string>)
    requires WellFormed(fs0) && Canonical(buildDir)
    requires forall q :: q in fs0 && Under(q, buildDir) ==> q !in denied
    requires if IsDirIn(fs0, buildDir) then TreeRemoved(fs0, cleared, denied, buildDir) else cleared == fs0
    ensures forall q :: q in cleared ==> !Under(q, buildDir)
    ensures forall q :: !AtOrUnder(q, buildDir) ==> (q in cleared <==> q in fs0) && (q in cleared ==> cleared[q] == fs0[q])
  {
    forall q | q in fs0 && Under(q, buildDir) ensures IsDirIn(fs0, buildDir) {
      UnderAncestor(q, buildDir);
    }
    if IsDirIn(fs0, buildDir) {
      forall q | q in fs0 && Under(q, buildDir) ensures !Survives(fs0, denied, q) {
        forall d | d in fs0 && Under(d, q) ensures d !in denied {
          UnderTrans(d, q, buildDir);
        }
      }
    }
  }

  /** `wp_mkdir_p` on the build directory succeeds after `rrmdir` exactly when
      it would have before. */
  lemma ClearedMkdirOk(fs0: FileSystem, cleared: FileSystem, buildDir: string, denied: set<string>)
    requires WellFormed(fs0) && Canonical(buildDir)
    requires if IsDirIn(fs0, buildDir) then TreeRemoved(fs0, cleared, denied, buildDir) else cleared == fs0
    ensures MkdirOk(cleared, buildDir) == MkdirOk(fs0, buildDir)
  {
    if IsDirIn(fs0, buildDir) {
      forall a | a in Ancestors(buildDir) && a in cleared ensures cleared[a].Dir? {
        AncestorIsDirOf(fs0, buildDir, a);
      }
      forall a | a in Ancestors(buildDir) && a in fs0 ensures fs0[a].Dir? {
        AncestorIsDirOf(fs0, buildDir, a);
      }
    }
  }

  /** Every existing ancestor of a directory entry is a directory. */
  lemma AncestorIsDirOf(fs: FileSystem, p: string, a: string)
    requires WellFormed(fs) && p in fs && a in Ancestors(p)
    ensures IsDirIn(fs, a)
  {
  }

  /** A path inside `d` has `d` among its ancestors. */
  lemma UnderAncestor(p: string, d: string)
    requires Under(p, d) && |d| > 0
    ensures d in Ancestors(p)
  {
    assert p[..|d|] == d && p[|d|] == '/';
  }

  /** Neither path is at or inside the other. */
  predicate Disjoint(a: string, b: string) {
    !AtOrUnder(a, b) && !AtOrUnder(b, a)
  }

  /** Two directories that both hold (or are) the same path are nested. */
  lemma Nested(p: string, a: string, b: string)
    ensures AtOrUnder(p, a) && AtOrUnder(p, b) ==> AtOrUnder(a, b) || AtOrUnder(b, a)
  {
    if AtOrUnder(p, a) && AtOrUnder(p, b) {
      if p != a && p != b {
        AncestorsLinear(p, a, b);
      }
    }
  }

  /** `x` inside `y` inside or at `c` is inside `c`. */
  lemma UnderOf(x: string, y: string, c: string)
    ensures Under(x, y) && AtOrUnder(y, c) ==> Under(x, c)
  {
    if Under(x, y) && Under(y, c) { UnderTrans(x, y, c); }
  }

  /** A copy into `dst` leaves a directory `d` apart from `dst` empty. */
  lemma CopyKeepsVacant(fs0: FileSystem, fs: FileSystem, src: string, dst: string, exclude: seq<string>, d: string)
    requires CopiedTree(fs0, fs, src, dst, exclude)
    requires Vacant(fs0, d) && Disjoint(dst, d)
    ensures Vacant(fs, d)
  {
    if IsDirIn(fs0, src) && MkdirOk(fs0, dst) {
      var base := Mkdir(fs0, dst);
      MkdirMade(fs0, dst);
      forall q | q in fs ensures !AtOrUnder(q, d) {
        Nested(q, dst, d);
        UnderOf(dst, q, d);
        if !Under(q, dst) {
          assert Kept(base, fs, q);
        }
      }
    }
  }

  /** Preparing unlinks an archive apart from the build directory when it
      may be deleted and is not a directory. */
  lemma PreparedDropsArchive(fs0: FileSystem, cleared: FileSystem, fs: FileSystem,
                             buildDir: string, zipPath: string, denied: set<string>)
    requires Prepared(fs0, cleared, fs, buildDir, zipPath, denied)
    requires Disjoint(zipPath, buildDir) && zipPath !in denied && !IsDirIn(fs0, zipPath)
    ensures zipPath !in fs
  {
    assert zipPath in cleared ==> cleared[zipPath] == fs0[zipPath];
    assert zipPath !in Ancestors(buildDir);
    assert Kept(cleared, Mkdir(cleared, buildDir), zipPath);
  }

  /** A path apart from a directory is apart from everything inside it. */
  lemma DisjointInside(z: string, d: string, dst: string)
    requires Disjoint(z, d) && Under(dst, d)
    ensures Disjoint(dst, z)
  {
    Nested(dst, z, d);
    UnderOf(z, dst, d);
  }

  /** A copy into `dst` leaves every path apart from `dst` as it was. */
  lemma CopyKeepsApart(fs0: FileSystem, fs: FileSystem, src: string, dst: string, exclude: seq<string>, z: string)
    requires CopiedTree(fs0, fs, src, dst, exclude)
    requires Disjoint(dst, z)
    ensures Kept(fs0, fs, z)
  {
    if IsDirIn(fs0, src) && MkdirOk(fs0, dst) {
      MkdirMade(fs0, dst);
      assert z !in Ancestors(dst);
      assert Kept(Mkdir(fs0, dst), fs, z);
    }
  }

  /** The manifest `createZip` builds from a listing: each path with the
      build directory and its '/' cut off, and what the path holds. */
  ghost predicate Manifest(fs: FileSystem, buildDir: string, paths: seq<string>, entries: seq<ZipEntry>) {
    && |entries| == |paths|
    && forall i :: 0 <= i < |paths| ==>
         paths[i] in fs && Under(paths[i], buildDir) && entries[i] == ZipEntry(paths[i][|buildDir| + 1..], fs[paths[i]])
  }

  /** `entries` is the manifest of some walk of the build directory. */
  ghost predicate Packs(fs: FileSystem, buildDir: string, entries: seq<ZipEntry>) {
    exists paths :: Listed(fs, buildDir, paths) && Manifest(fs, buildDir, paths, entries)
  }

  /** Unpacking an archive into `dir`: each entry at `dir/name`, later entries
      over earlier ones. */
  function Extract(dir: string, entries: seq<ZipEntry>): (fs: FileSystem)
    ensures forall q :: q in fs ==> exists i :: 0 <= i < |entries| && q == dir + "/" + entries[i].name
    decreases |entries|
  {
    if entries == [] then map[]
    else
      var e := entries[|entries| - 1];
      Extract(dir, entries[..|entries| - 1])[dir + "/" + e.name := e.node]
  }

  /** The part of `fs` inside `dir`. */
  ghost function Subtree(fs: FileSystem, dir: string): FileSystem {
    map q | q in fs && Under(q, dir) :: fs[q]
  }

  /** Unpacking the first `k` entries of a manifest gives back the first `k` paths. */
  lemma {:induction false} ExtractPrefix(fs: FileSystem, buildDir: string, paths: seq<string>,
                                         entries: seq<ZipEntry>, k: nat)
    requires Manifest(fs, buildDir, paths, entries) && k <= |paths|
    ensures forall q :: q in Extract(buildDir, entries[..k]) <==> q in paths[..k]
    ensures forall q :: q in Extract(buildDir, entries[..k]) ==> q in fs && Extract(buildDir, entries[..k])[q] == fs[q]
  {
    if k > 0 {
      ExtractPrefix(fs, buildDir, paths, entries, k - 1);
      assert entries[..k][..k - 1] == entries[..k - 1];
      assert paths[..k] == paths[..k - 1] + [paths[k - 1]];
      var p := paths[k - 1];
      assert buildDir + "/" + p[|buildDir| + 1..] == p;
    }
  }

  /** The archive `createZip` writes unpacks, next to itself, into exactly the
      build directory it was made from. */
  lemma PacksExtract(fs: FileSystem, buildDir: string, entries: seq<ZipEntry>)
    requires Packs(fs, buildDir, entries)
    ensures Extract(buildDir, entries) == Subtree(fs, buildDir)
  {
    var paths :| Listed(fs, buildDir, paths) && Manifest(fs, buildDir, paths, entries);
    ExtractManifest(fs, buildDir, paths, entries);
    SameMaps(Extract(buildDir, entries), Subtree(fs, buildDir));
  }

  lemma ExtractManifest(fs: FileSystem, buildDir: string, paths: seq<string>, entries: seq<ZipEntry>)
    requires Manifest(fs, buildDir, paths, entries)
    ensures forall q :: q in Extract(buildDir, entries) <==> q in paths
    ensures forall q :: q in Extract(buildDir, entries) ==> q in fs && Extract(buildDir, entries)[q] == fs[q]
  {
    ExtractPrefix(fs, buildDir, paths, entries, |paths|);
    assert entries[..|paths|] == entries;
    assert paths[..|paths|] == paths;
  }

  lemma SameMaps(a: FileSystem, b: FileSystem)
    requires forall q :: q in a <==> q in b
    requires forall q :: q in a ==> a[q] == b[q]
    ensures a == b
  {
  }

  /** The archive's entries are named by distinct relative paths, and each
      directory's entry comes before the entries inside it. */
  lemma PacksOrder(fs: FileSystem, buildDir: string, entries: seq<ZipEntry>, i: nat, j: nat)
    requires Packs(fs, buildDir, entries) && i < |entries| && j < |entries|
    ensures i != j ==> entries[i].name != entries[j].name
    ensures Under(buildDir + "/" + entries[j].name, buildDir + "/" + entries[i].name) ==> i < j
  {
    var paths :| Listed(fs, buildDir, paths) && Manifest(fs, buildDir, paths, entries);
    ManifestOrder(fs, buildDir, paths, entries, i, j);
  }

  lemma ManifestOrder(fs: FileSystem, buildDir: string, paths: seq<string>, entries: seq<ZipEntry>, i: nat, j: nat)
    requires Distinct(paths) && ParentsFirst(paths)
    requires Manifest(fs, buildDir, paths, entries) && i < |entries| && j < |entries|
    ensures i != j ==> entries[i].name != entries[j].name
    ensures Under(buildDir + "/" + entries[j].name, buildDir + "/" + entries[i].name) ==> i < j
  {
    ManifestName(fs, buildDir, paths, entries, i);
    ManifestName(fs, buildDir, paths, entries, j);
    if i < j {
      assert paths[i] != paths[j];
    } else if j < i {
      assert paths[j] != paths[i];
    }
  }

  /** An entry's name, put back under the build directory, is its path. */
  lemma ManifestName(fs: FileSystem, buildDir: string, paths: seq<string>, entries: seq<ZipEntry>, i: nat)
    requires Manifest(fs, buildDir, paths, entries) && i < |paths|
    ensures buildDir + "/" + entries[i].name == paths[i]
  {
    var p := paths[i];
    assert Under(p, buildDir);
    assert p == p[..|buildDir| + 1] + p[|buildDir| + 1..];
  }

  /** `ZipArchive::close` after the walk: the archive `entries` of the build
      directory is written when the directory exists, holds something and the
      archive's place is writable; otherwise nothing changes. */
  ghost predicate Zipped(fs0: FileSystem, fs: FileSystem, buildDir: string, zipPath: string, entries: seq<ZipEntry>) {
    if IsDirIn(fs0, buildDir) && Sub(fs0, buildDir) != {} && PutOk(fs0, zipPath)
    then Packs(fs0, buildDir, entries) && fs == fs0[zipPath := Archive(entries)]
    else fs == fs0
  }
}
