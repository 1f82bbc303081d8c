/** The uninstall script: deletes the version option and removes the
    exporter's builds directory from the uploads directory. */
module Uninstall {
  import opened Php
  import opened Paths
  import opened Host
  import opened Exporter

  /** The directory the script removes: `trailingslashit(basedir) . 'static-shield-builds'`. */
  function BuildsFolder(basedir: string): string {
    TrailingSlashIt(basedir) + "static-shield-builds"
  }

  /** For an uploads directory written without a trailing slash, that is
      the directory the exporter writes its builds and archive into. */
  lemma BuildsFolderIsExportersDir(basedir: string)
    requires basedir != [] && basedir[|basedir| - 1] !in {'/', '\\'}
    ensures BuildsFolder(basedir) == BuildsDir(basedir)
  {
    assert RTrim(basedir, {'/', '\\'}) == basedir;
    assert "/" + "static-shield-builds" == "/static-shield-builds";
    assert BuildsFolder(basedir) == basedir + ("/" + "static-shield-builds");
  }

  /** `static_shield_remove_directory($dir)`: every entry inside `dir`,
      depth first, then `dir` itself; failures are silenced, so whatever
      may not be deleted stays, with the directories that hold it. */
  method RemoveDirectory(host: Host, dir: string)
    requires host.Valid() && host.IsDir(dir)
    modifies host`fs
    ensures host.Valid()
    ensures TreeRemoved(old(host.fs), host.fs, host.denied, dir)
  {
    host.RemoveTree(dir);
  }

  /** The script: the option goes, and the builds folder is removed when it
      is a directory. Nothing else changes. */
  method Run(host: Host, basedir: string)
    requires host.Valid()
    modifies host`options, host`fs
    ensures host.Valid()
    ensures host.options == old(host.options) - {"static_shield_version"}
    ensures var dir := BuildsFolder(basedir);
            if IsDirIn(old(host.fs), dir) then TreeRemoved(old(host.fs), host.fs, host.denied, dir)
            else host.fs == old(host.fs)
  {
    host.DeleteOption("static_shield_version");
    var dir := TrailingSlashIt(basedir) + "static-shield-builds";
    if host.IsDir(dir) {
      RemoveDirectory(host, dir);
    }
  }

  /** When nothing inside the folder is protected, it is gone completely,
      and everything outside it is untouched. */
  lemma CleanRemoval(fs0: FileSystem, fs: FileSystem, denied: set<string>, dir: string)
    requires TreeRemoved(fs0, fs, denied, dir)
    requires forall q :: q in fs0 && AtOrUnder(q, dir) ==> q !in denied
    ensures forall q :: q in fs ==> !AtOrUnder(q, dir)
    ensures forall q :: q in fs0 && !AtOrUnder(q, dir) ==> q in fs && fs[q] == fs0[q]
  {
    forall q | q in fs0 && AtOrUnder(q, dir)
      ensures !Survives(fs0, denied, q)
    {
      forall d | d in fs0 && Under(d, q)
        ensures d !in denied
      {
        if q != dir {
          UnderTrans(d, q, dir);
        }
      }
    }
  }
}
