/** The admin side of the plugin: running an export and the optional R2
    upload from the admin page or after a post update, the notice queue
    kept in a transient across redirects, and the AJAX handlers of the DNS
    panel. */
module Admin {
  import opened Php
  import opened Paths
  import opened Host
  import opened Copying
  import opened Build
  import opened Exporter
  import opened Deployer
  import opened WorkerClient

  /** The notices queued in the transient; anything but a list counts as none. */
  function Queue(t: Transient): seq<Notice> {
    if t.NoticeList? then t.items else []
  }

  /** The transient after queueing `added`, one `addNotice` call each. */
  function Queued(t: Transient, added: seq<Notice>): Transient {
    if added == [] then t else NoticeList(Queue(t) + added)
  }

  /** Queueing keeps what was queued and adds the new notices behind it, in order. */
  lemma QueuedOrder(t: Transient, a: seq<Notice>, b: seq<Notice>)
    ensures Queue(Queued(t, a)) == Queue(t) + a
    ensures Queued(Queued(t, a), b) == Queued(t, a + b)
  {
    if a == [] {
      assert a + b == b;
    } else if b != [] {
      assert Queue(t) + a + b == Queue(t) + (a + b);
    }
  }

  /** The CSS class of a notice of the given type. */
  function NoticeClass(kind: string): (c: string)
    ensures c == "notice-error" <==> kind == "error"
    ensures c == "notice-warning" <==> kind == "warning"
    ensures c == "notice-success" <==> kind != "error" && kind != "warning"
  {
    if kind == "warning" then "notice-warning"
    else if kind == "error" then "notice-error"
    else "notice-success"
  }

  /** The markup of one notice; `kses` is `wp_kses_post`. */
  function NoticeHtml(n: Notice, kses: string -> string): string {
    "<div class=\"notice " + NoticeClass(n.kind) + " is-dismissible\"><p>" + kses(n.message) + "</p></div>"
  }

  /** The markup of a queue of notices: one block per notice, in queue order. */
  function NoticesHtml(q: seq<Notice>, kses: string -> string): (r: seq<string>)
    ensures |r| == |q|
    ensures forall i :: 0 <= i < |q| ==> r[i] == NoticeHtml(q[i], kses)
  {
    if q == [] then [] else NoticesHtml(q[..|q| - 1], kses) + [NoticeHtml(q[|q| - 1], kses)]
  }

  /** Notices queued by two requests print as the first's, then the second's. */
  lemma NoticesHtmlAppend(a: seq<Notice>, b: seq<Notice>, kses: string -> string)
    ensures NoticesHtml(a + b, kses) == NoticesHtml(a, kses) + NoticesHtml(b, kses)
  {
    var l, r := NoticesHtml(a + b, kses), NoticesHtml(a, kses) + NoticesHtml(b, kses);
    assert |l| == |r|;
    forall i | 0 <= i < |l|
      ensures l[i] == r[i]
    {
      if i < |a| {
        assert (a + b)[i] == a[i];
      } else {
        assert (a + b)[i] == b[i - |a|];
      }
    }
  }

  const ArchiveMissing: Notice := Notice("Export failed: archive not created", "error")
  const UploadRejected: Notice := Notice("Upload to R2 failed. Check logs.", "error")
  const NotPermitted: Notice := Notice("You are not permitted to run the export", "error")
  const Regenerated: Notice := Notice("Static build regenerated after post update!", "success")

  /** The notice after a manual export whose archive exists. */
  function Completed(downloadHref: string): Notice {
    Notice("Manual export completed. <a href=\"" + downloadHref + "\" target=\"_blank\">Download ZIP</a>", "success")
  }

  /** The public URL of the archive, from the uploads base URL. */
  function DownloadUrl(baseUrl: string): string {
    baseUrl + "/static-shield-builds/static-shield-builds.zip"
  }

  /** The download link names the exporter's archive: its path with the
      uploads directory replaced by the uploads URL. */
  lemma DownloadUrlIsArchive(baseUrl: string)
    ensures DownloadUrl(baseUrl) == ZipPath(baseUrl)
  {
    assert "/static-shield-builds" + "/static-shield-builds.zip" == "/static-shield-builds/static-shield-builds.zip";
    assert ZipPath(baseUrl) == baseUrl + ("/static-shield-builds" + "/static-shield-builds.zip");
  }

  /** What `runExportAndDeploy()` returns: the exporter's exception passing
      through, `false`, or the archive path. */
  datatype DeployResult = Propagated | Failed | Done(zipPath: string)

  /** One run's decisions: the result, the notices queued, and whether the
      upload was attempted. */
  datatype Step = Step(result: DeployResult, notices: seq<Notice>, uploads: bool)

  /** The decisions of `runExportAndDeploy()`, given what the export
      returned, whether its archive exists, `static_shield_use_cf`, and the
      upload's outcome. */
  function Deploy(exported: Outcome, archived: bool, useCf: bool, uploaded: bool): (s: Step)
    ensures s.result.Propagated? <==> exported.Threw?
    ensures s.uploads <==> exported.Finished? && TruthyString(exported.zipPath) && archived && useCf
    ensures s.result.Done? <==> exported.Finished? && TruthyString(exported.zipPath) && archived && (useCf ==> uploaded)
    ensures s.result.Done? ==> s.result.zipPath == exported.zipPath
    ensures !s.result.Failed? ==> s.notices == []
    ensures s.result.Failed? ==> s.notices == [if s.uploads then UploadRejected else ArchiveMissing]
  {
    match exported
    case Threw => Step(Propagated, [], false)
    case Finished(zip) =>
      if !(TruthyString(zip) && archived) then Step(Failed, [ArchiveMissing], false)
      else if useCf && !uploaded then Step(Failed, [UploadRejected], true)
      else Step(Done(zip), [], useCf)
  }

  /** With the R2 upload switched off, an export whose archive exists
      succeeds whatever the upload would have done. */
  lemma UploadOnlyWhenEnabled(exported: Outcome, archived: bool, u1: bool, u2: bool)
    ensures Deploy(exported, archived, false, u1) == Deploy(exported, archived, false, u2)
    ensures !Deploy(exported, archived, false, u1).uploads
  {
  }

  /** What one `runExport()` did, as `RunExport` states it: how it ended,
      the filesystem after each step before the archive, the archive's
      entries, and the messages of the archive step, together with the
      filesystem it started on and the one it left. */
  datatype ExportRun = ExportRun(outcome: Outcome, before: FileSystem, st: Stages, entries: seq<ZipEntry>,
                                 zipMessages: seq<Message>, after: FileSystem)

  /** `e` is a run of the exporter for `uploads` and `absPath`. */
  ghost predicate RanExport(site: Site, uploads: string, absPath: string, denied: set<string>, e: ExportRun) {
    var fs0, fs := e.before, e.after;
    var buildDir, zipPath := BuildDir(uploads), ZipPath(uploads);
    var zips := site.zipAvailable && site.zipOpens;
    && Staged(fs0, e.st, site, uploads, absPath, denied)
    && (if zips then Zipped(e.st.assets, fs, buildDir, zipPath, e.entries) else fs == e.st.assets)
    && e.outcome == (if zips && !IsDirIn(e.st.assets, buildDir) then Threw else Finished(zipPath))
    && e.zipMessages == ZipMessages(site, IsDirIn(e.st.assets, buildDir), SizeText(site, fs, zipPath))
  }

  /** The closing line of a run that returned. */
  function ExportTail(e: ExportRun, duration: string): seq<Message> {
    if e.outcome.Finished? then [FinishMessage(duration)] else []
  }

  /** The stored log a run leaves, from the `t0`-th clock reading on. */
  function ExportLines(clock: nat -> string, t0: nat, site: Site, uploads: string, duration: string, e: ExportRun): seq<string> {
    RunLines(clock, t0, StageMessages(site, BuildDir(uploads)), e.zipMessages, ExportTail(e, duration))
  }

  /** The number of clock readings a run takes: one per logged line. */
  function ExportLength(site: Site, uploads: string, duration: string, e: ExportRun): nat {
    |StageMessages(site, BuildDir(uploads))| + |e.zipMessages| + |ExportTail(e, duration)|
  }

  /** A run that can build its archive returns the archive's path, and the
      archive then holds the build directory's contents; with the R2 upload
      off such a run succeeds without queueing anything. */
  lemma ArchivedRunSucceeds(site: Site, uploads: string, absPath: string, denied: set<string>, e: ExportRun,
                            uploaded: bool)
    requires RanExport(site, uploads, absPath, denied, e)
    requires site.zipAvailable && site.zipOpens
    requires IsDirIn(e.st.assets, BuildDir(uploads)) && Sub(e.st.assets, BuildDir(uploads)) != {}
    requires PutOk(e.st.assets, ZipPath(uploads))
    ensures e.outcome == Finished(ZipPath(uploads))
    ensures ZipPath(uploads) in e.after && e.after[ZipPath(uploads)] == Archive(e.entries)
    ensures Packs(e.st.assets, BuildDir(uploads), e.entries)
    ensures Deploy(e.outcome, ZipPath(uploads) in e.after, false, uploaded) == Step(Done(ZipPath(uploads)), [], false)
  {
    var z := ZipPath(uploads);
    assert z[|z| - 1] == 'p';
  }

  /** A run whose build directory is gone when the archive is built lets the
      exception escape: nothing is queued and nothing uploaded. */
  lemma ThrownRunPropagates(site: Site, uploads: string, absPath: string, denied: set<string>, e: ExportRun,
                            archived: bool, useCf: bool, uploaded: bool)
    requires RanExport(site, uploads, absPath, denied, e)
    requires site.zipAvailable && site.zipOpens && !IsDirIn(e.st.assets, BuildDir(uploads))
    ensures e.outcome == Threw && e.after == e.st.assets
    ensures Deploy(e.outcome, archived, useCf, uploaded) == Step(Propagated, [], false)
  {
  }

  /** Without a usable `ZipArchive` a run leaves no archive behind: the
      stale one is unlinked (when it may be), nothing the run writes lands
      there, and `runExportAndDeploy()` reports the archive missing. */
  lemma UnzippedRunFails(site: Site, uploads: string, absPath: string, denied: set<string>, e: ExportRun,
                         useCf: bool, uploaded: bool)
    requires ZipPath(uploads) !in denied && !IsDirIn(e.before, ZipPath(uploads))
    requires RanExport(site, uploads, absPath, denied, e)
    requires !(site.zipAvailable && site.zipOpens)
    ensures e.outcome == Finished(ZipPath(uploads)) && ZipPath(uploads) !in e.after
    ensures Deploy(e.outcome, ZipPath(uploads) in e.after, useCf, uploaded) == Step(Failed, [ArchiveMissing], false)
  {
    var bd, z := BuildDir(uploads), ZipPath(uploads);
    ArchiveApart(uploads);
    PreparedDropsArchive(e.before, e.st.cleared, e.st.prepared, bd, z, denied);
    StagedKeepsApart(e.before, e.st, site, uploads, absPath, denied, z);
  }

  /** The run recorded when the export did not run. */
  const NoRun: ExportRun := ExportRun(Threw, map[], Stages(map[], map[], map[], map[], map[], map[]), [], [], map[])

  /** The options that decide the deploy step: `static_shield_use_cf` and
      the R2 settings. */
  datatype DeployConfig = DeployConfig(useCf: bool, settings: Settings)

  /** The `POST` of the manual export form as the handler sees it. */
  datatype ManualPost = ManualPost(submitted: bool, nonceOk: bool, canManage: bool)

  /** How `handleManualExport()` ends: returning (no form submitted),
      `check_admin_referer` ending the request, a redirect, or the
      exporter's exception. */
  datatype Handled = Ignored | Died | Redirect(location: string) | Thrown

  class Admin {
    const host: Host
    const pluginName: string
    /** The uploads directory and its public URL (`basedir`, `baseurl`). */
    const uploads: string
    const baseUrl: string
    /** `ABSPATH`. */
    const absPath: string
    /** `admin_url('')`. */
    const adminBase: string

    constructor (host: Host, pluginName: string, uploads: string, baseUrl: string, absPath: string, adminBase: string)
      ensures this.host == host && this.pluginName == pluginName && this.uploads == uploads
      ensures this.baseUrl == baseUrl && this.absPath == absPath && this.adminBase == adminBase
    {
      this.host := host;
      this.pluginName := pluginName;
      this.uploads := uploads;
      this.baseUrl := baseUrl;
      this.absPath := absPath;
      this.adminBase := adminBase;
    }

    /** The plugin's admin page, where both guards and the export redirect. */
    function AdminPage(): string {
      adminBase + "admin.php?page=" + pluginName
    }

    /** What the export checks before running, as `RunExport` states them. */
    ghost predicate CanExport()
      reads this, host
    {
      && host.Valid() && Canonical(uploads)
      && (forall q :: q in host.fs && Under(q, BuildDir(uploads)) ==> q !in host.denied)
      && Apart(absPath + "wp-includes/js", BuildDir(uploads) + "/wp-includes/js", [])
      && Apart(absPath + "wp-includes/css", BuildDir(uploads) + "/wp-includes/css", [])
    }

    /** The options `runExportAndDeploy()` consults once the export is done. */
    function Config(): (c: DeployConfig)
      reads host`options
      ensures c.settings == SettingsOf(host)
      ensures c.useCf <==> "static_shield_use_cf" in host.options && TruthyString(host.options["static_shield_use_cf"])
    {
      DeployConfig(Truthy(host.GetOption("static_shield_use_cf")), SettingsOf(host))
    }

    /** The decisions of `runExportAndDeploy()` after the export `e`, with
        the options `c`. */
    ghost function RunStep(readable: string -> bool, r2: R2, e: ExportRun, c: DeployConfig): Step {
      Deploy(e.outcome, ZipPath(uploads) in e.after, c.useCf, Attempt(e.after, readable, r2, c.settings, ZipPath(uploads)).ok)
    }

    /** The stored log and the clock after `runExportAndDeploy()` started at
        the `t0`-th clock reading with the options `c`: the export's lines,
        then the upload's line when it was attempted. */
    ghost predicate RunLogged(t0: nat, site: Site, duration: string, readable: string -> bool, r2: R2, e: ExportRun,
                              c: DeployConfig, lastLog: seq<string>, tick: nat)
    {
      var s := RunStep(readable, r2, e, c);
      var t1 := t0 + ExportLength(site, uploads, duration, e);
      var u := Attempt(e.after, readable, r2, c.settings, ZipPath(uploads));
      && lastLog == ExportLines(host.clock, t0, site, uploads, duration, e)
                    + (if s.uploads then [LogLine(host.clock(t1), Message("info", u.message))] else [])
      && tick == t1 + (if s.uploads then 1 else 0)
    }

    /** `e` is a run of the export that started on `fs0` at the `t0`-th
        clock reading, and with the options `c` the run and its deploy step
        left `fs`, the stored log `lastLog` and the clock at `tick`. */
    ghost predicate Ran(fs0: FileSystem, t0: nat, site: Site, duration: string, readable: string -> bool, r2: R2,
                        c: DeployConfig, e: ExportRun, fs: FileSystem, lastLog: seq<string>, tick: nat)
    {
      && e.before == fs0 && e.after == fs
      && RanExport(site, uploads, absPath, host.denied, e)
      && RunLogged(t0, site, duration, readable, r2, e, c, lastLog, tick)
    }

    /** The export's lines and clock readings followed by what `Deliver`
        logged make up what `RunLogged` describes. */
    lemma DeliveredLogged(t0: nat, site: Site, duration: string, readable: string -> bool, r2: R2, e: ExportRun,
                          c: DeployConfig, t1: nat, log1: seq<string>, lastLog: seq<string>, tick: nat)
      requires t1 == t0 + ExportLength(site, uploads, duration, e)
      requires log1 == ExportLines(host.clock, t0, site, uploads, duration, e)
      requires var s := RunStep(readable, r2, e, c);
               var u := Attempt(e.after, readable, r2, c.settings, ZipPath(uploads));
               && lastLog == log1 + (if s.uploads then [LogLine(host.clock(t1), Message("info", u.message))] else [])
               && tick == t1 + (if s.uploads then 1 else 0)
      ensures RunLogged(t0, site, duration, readable, r2, e, c, lastLog, tick)
    {
    }

    /** `addNotice($message, $type)`: the notice joins the end of the queue;
        a transient that is not a list starts a new one. */
    method AddNotice(message: string, kind: string)
      modifies host`notices
      ensures host.notices == NoticeList(Queue(old(host.notices)) + [Notice(message, kind)])
    {
      var notices := host.notices;
      var items := if notices.NoticeList? then notices.items else [];
      host.notices := NoticeList(items + [Notice(message, kind)]);
    }

    /** `printNotices()`: the queued notices' markup, in order; a non-empty
        queue is then deleted, anything else is left. */
    method PrintNotices(kses: string -> string) returns (out: seq<string>)
      modifies host`notices
      ensures out == NoticesHtml(Queue(old(host.notices)), kses)
      ensures host.notices == if Queue(old(host.notices)) == [] then old(host.notices) else NoTransient
    {
      var notices := host.notices;
      out := [];
      if !notices.NoticeList? || notices.items == [] {
        return;
      }
      var items := notices.items;
      for i := 0 to |items|
        invariant out == NoticesHtml(items[..i], kses)
      {
        assert items[..i + 1][..i] == items[..i];
        var cls := "notice-success";
        if items[i].kind == "error" {
          cls := "notice-error";
        }
        if items[i].kind == "warning" {
          cls := "notice-warning";
        }
        out := out + ["<div class=\"notice " + cls + " is-dismissible\"><p>" + kses(items[i].message) + "</p></div>"];
      }
      assert items[..|items|] == items;
      host.notices := NoTransient;
    }

    /** The export step of `runExportAndDeploy()`: a fresh exporter's
        `runExport()`. `e` is what the run did. */
    method Export(site: Site, duration: string) returns (exported: Outcome, ghost e: ExportRun)
      requires CanExport()
      modifies host`fs, host`lastLog, host`tick
      ensures host.Valid()
      ensures e.before == old(host.fs) && e.after == host.fs
      ensures RanExport(site, uploads, absPath, host.denied, e)
      ensures exported == e.outcome
      ensures host.lastLog == ExportLines(host.clock, old(host.tick), site, uploads, duration, e)
      ensures host.tick == old(host.tick) + ExportLength(site, uploads, duration, e)
    {
      var exporter := new Exporter(host, uploads, absPath);
      var out, st, entries, zipMessages := exporter.RunExport(site, duration);
      e := ExportRun(out, old(host.fs), st, entries, zipMessages, host.fs);
      assert [] + ExportLines(host.clock, old(host.tick), site, uploads, duration, e)
          == ExportLines(host.clock, old(host.tick), site, uploads, duration, e);
      return out, e;
    }

    /** What `runExportAndDeploy()` does once the export `e` has returned:
        the archive check, then the upload when `static_shield_use_cf` is
        set, queueing a notice on failure. */
    method Deliver(exported: Outcome, ghost e: ExportRun, readable: string -> bool, r2: R2) returns (r: DeployResult)
      requires exported == e.outcome && (exported == Threw || exported == Finished(ZipPath(uploads)))
      requires e.after == host.fs
      modifies host`lastLog, host`tick, host`notices
      ensures var s := RunStep(readable, r2, e, old(Config()));
              var u := Attempt(e.after, readable, r2, old(Config()).settings, ZipPath(uploads));
              && r == s.result
              && host.notices == Queued(old(host.notices), s.notices)
              && host.lastLog == old(host.lastLog) + (if s.uploads then [LogLine(host.clock(old(host.tick)), Message("info", u.message))] else [])
              && host.tick == old(host.tick) + (if s.uploads then 1 else 0)
    {
      if exported.Threw? {
        assert old(host.lastLog) + [] == host.lastLog;
        return Propagated;
      }
      var zipPath := exported.zipPath;
      if !(TruthyString(zipPath) && host.FileExists(zipPath)) {
        AddNotice(ArchiveMissing.message, ArchiveMissing.kind);
        assert old(host.lastLog) + [] == host.lastLog;
        return Failed;
      }
      if Truthy(host.GetOption("static_shield_use_cf")) {
        var deployer := new Deployer(host);
        var ok := deployer.UploadToR2(readable, r2, zipPath);
        if !ok {
          AddNotice(UploadRejected.message, UploadRejected.kind);
          return Failed;
        }
      } else {
        assert old(host.lastLog) + [] == host.lastLog;
      }
      return Done(zipPath);
    }

    /** `runExportAndDeploy()`. `e` is what its export did. */
    method RunExportAndDeploy(site: Site, duration: string, readable: string -> bool, r2: R2)
      returns (r: DeployResult, ghost e: ExportRun)
      requires CanExport()
      modifies host`fs, host`lastLog, host`tick, host`notices
      ensures host.Valid()
      ensures Ran(old(host.fs), old(host.tick), site, duration, readable, r2, old(Config()), e, host.fs, host.lastLog, host.tick)
      ensures e.outcome == Threw || e.outcome == Finished(ZipPath(uploads))
      ensures r == RunStep(readable, r2, e, old(Config())).result
      ensures host.notices == Queued(old(host.notices), RunStep(readable, r2, e, old(Config())).notices)
    {
      var out;
      out, e := Export(site, duration);
      ghost var t1, log1 := host.tick, host.lastLog;
      r := Deliver(out, e, readable, r2);
      DeliveredLogged(old(host.tick), site, duration, readable, r2, e, old(Config()), t1, log1, host.lastLog, host.tick);
    }

    /** `handleManualExport()`. `ran` says whether the export ran and `e`
        is then what it did. */
    method HandleManualExport(post: ManualPost, site: Site, duration: string, readable: string -> bool, r2: R2,
                              escUrl: string -> string)
      returns (h: Handled, ghost ran: bool, ghost e: ExportRun)
      requires post.submitted && post.nonceOk && post.canManage ==> CanExport()
      modifies host`fs, host`lastLog, host`tick, host`notices
      ensures ran <==> post.submitted && post.nonceOk && post.canManage
      ensures !post.submitted ==> h == Ignored && host.notices == old(host.notices)
      ensures post.submitted && !post.nonceOk ==> h == Died && host.notices == old(host.notices)
      ensures post.submitted && post.nonceOk && !post.canManage ==>
                h == Redirect(AdminPage()) && host.notices == Queued(old(host.notices), [NotPermitted])
      ensures !ran ==> host.fs == old(host.fs) && host.lastLog == old(host.lastLog) && host.tick == old(host.tick)
      ensures ran ==> Ran(old(host.fs), old(host.tick), site, duration, readable, r2, old(Config()), e, host.fs, host.lastLog, host.tick)
      ensures ran ==> var s := RunStep(readable, r2, e, old(Config()));
                      && h == (if s.result.Propagated? then Thrown else Redirect(AdminPage()))
                      && host.notices == Queued(old(host.notices),
                                                s.notices + if s.result.Done? then [Completed(escUrl(DownloadUrl(baseUrl)))] else [])
    {
      ran, e := false, NoRun;
      if !post.submitted {
        return Ignored, ran, e;
      }
      if !post.nonceOk {
        return Died, ran, e;
      }
      if !post.canManage {
        AddNotice(NotPermitted.message, NotPermitted.kind);
        return Redirect(AdminPage()), ran, e;
      }
      ran := true;
      ghost var notices0 := host.notices;
      var r;
      r, e := RunExportAndDeploy(site, duration, readable, r2);
      ghost var s := RunStep(readable, r2, e, old(Config()));
      assert r.Done? ==> r.zipPath == ZipPath(uploads) && host.FileExists(r.zipPath);
      if r.Propagated? {
        assert s.notices == [] && s.notices + [] == [];
        return Thrown, ran, e;
      }
      var downloadUrl := baseUrl + "/static-shield-builds/static-shield-builds.zip";
      if r.Done? && host.FileExists(r.zipPath) {
        var c := Completed(escUrl(downloadUrl));
        AddNotice(c.message, c.kind);
        QueuedOrder(notices0, s.notices, [c]);
      } else {
        assert s.notices + [] == s.notices;
      }
      return Redirect(AdminPage()), ran, e;
    }

    /** `handlePostUpdate($postId, $post, $update)`: autosaves, revisions
        and new posts do nothing; an update runs the export and, when it
        returns an archive, queues the "regenerated" notice. `ran` says
        whether the export ran and `e` is then what it did. */
    method HandlePostUpdate(autosave: bool, revision: bool, update: bool, site: Site, duration: string,
                            readable: string -> bool, r2: R2)
      returns (ghost ran: bool, ghost e: ExportRun)
      requires !autosave && !revision && update ==> CanExport()
      modifies host`fs, host`lastLog, host`tick, host`notices
      ensures ran <==> !autosave && !revision && update
      ensures !ran ==> host.fs == old(host.fs) && host.lastLog == old(host.lastLog) && host.tick == old(host.tick)
      ensures !ran ==> host.notices == old(host.notices)
      ensures ran ==> Ran(old(host.fs), old(host.tick), site, duration, readable, r2, old(Config()), e, host.fs, host.lastLog, host.tick)
      ensures ran ==> var s := RunStep(readable, r2, e, old(Config()));
                      host.notices == Queued(old(host.notices), s.notices + if s.result.Done? then [Regenerated] else [])
    {
      ran, e := false, NoRun;
      if autosave || revision {
        return;
      }
      if update {
        ran := true;
        e := Regenerate(site, duration, readable, r2);
      }
    }

    /** The update branch of `handlePostUpdate()`: the export and deploy,
        then the "regenerated" notice when an archive came back. */
    method Regenerate(site: Site, duration: string, readable: string -> bool, r2: R2) returns (ghost e: ExportRun)
      requires CanExport()
      modifies host`fs, host`lastLog, host`tick, host`notices
      ensures Ran(old(host.fs), old(host.tick), site, duration, readable, r2, old(Config()), e, host.fs, host.lastLog, host.tick)
      ensures var s := RunStep(readable, r2, e, old(Config()));
              host.notices == Queued(old(host.notices), s.notices + if s.result.Done? then [Regenerated] else [])
    {
      var r;
      r, e := RunExportAndDeploy(site, duration, readable, r2);
      ghost var s := RunStep(readable, r2, e, old(Config()));
      assert r == s.result && (r.Done? ==> TruthyString(r.zipPath));
      if r.Done? && TruthyString(r.zipPath) {
        AddNotice(Regenerated.message, Regenerated.kind);
        QueuedOrder(old(host.notices), s.notices, [Regenerated]);
      } else {
        assert s.notices + [] == s.notices;
      }
    }
  }

  /** An AJAX request of the DNS panel: whether its nonce checks, whether
      the user may manage options, and its `$_POST` fields. */
  datatype AjaxCall = AjaxCall(nonceOk: bool, canManage: bool, post: map<string, string>)

  /** How a handler answers: `check_ajax_referer` ending the request, or
      `wp_send_json_error` (with its status, if one is given) or
      `wp_send_json_success`. */
  datatype AjaxReply = NonceRejected | JsonError(code: string, message: string, status: Option<int>) | JsonSuccess(data: Json)

  const Unauthorized: AjaxReply := JsonError("unauthorized", "Unauthorized access", Some(403))

  /** A `$_POST` field, "" when absent. */
  function PostField(post: map<string, string>, key: string): string {
    if key in post then post[key] else ""
  }

  /** The record `ajaxDnsAdd()` builds from the form; `sanitize` is
      `sanitize_text_field`. */
  function DnsRecord(post: map<string, string>, sanitize: string -> string): (r: Json)
    ensures r.JObject? && |r.fields| == 5
    ensures r.fields[0] == ("type", JStr(sanitize(PostField(post, "type"))))
    ensures r.fields[1] == ("name", JStr(sanitize(PostField(post, "name"))))
    ensures r.fields[2] == ("content", JStr(sanitize(PostField(post, "content"))))
    ensures r.fields[3].0 == "ttl" && r.fields[3].1.JInt?
    ensures "ttl" !in post ==> r.fields[3].1.i == 3600
    ensures "ttl" in post ==> r.fields[3].1.i == IntVal(post["ttl"])
    ensures r.fields[4] == ("proxied", JBool("proxied" in post && TruthyString(post["proxied"])))
  {
    JObject([("type", JStr(sanitize(PostField(post, "type")))),
             ("name", JStr(sanitize(PostField(post, "name")))),
             ("content", JStr(sanitize(PostField(post, "content")))),
             ("ttl", JInt(if "ttl" in post then IntVal(post["ttl"]) else 3600)),
             ("proxied", JBool("proxied" in post && TruthyString(post["proxied"])))])
  }

  /** A form TTL PHP prints from a number in range is read back as that number. */
  lemma DnsRecordTtl(post: map<string, string>, sanitize: string -> string, ttl: nat)
    requires "ttl" in post && post["ttl"] == NatToString(ttl) && ttl <= IntMax
    ensures DnsRecord(post, sanitize).fields[3] == ("ttl", JInt(ttl))
  {
    IntValOfNat(ttl);
  }

  /** A posted ttl with no digit in it, such as "" or "abc", is 0 and not
      the 3600 of an absent field. */
  lemma DnsRecordTtlUnread(post: map<string, string>, sanitize: string -> string)
    requires "ttl" in post && forall i :: 0 <= i < |post["ttl"]| ==> !('0' <= post["ttl"][i] <= '9')
    ensures DnsRecord(post, sanitize).fields[3] == ("ttl", JInt(0))
  {
    IntValNoDigits(post["ttl"]);
  }

  /** A record the handler accepts: type, name and content all non-empty. */
  predicate ValidRecord(record: Json)
    requires record.JObject? && |record.fields| == 5
  {
    && record.fields[0].1.JStr? && TruthyString(record.fields[0].1.s)
    && record.fields[1].1.JStr? && TruthyString(record.fields[1].1.s)
    && record.fields[2].1.JStr? && TruthyString(record.fields[2].1.s)
  }

  /** `ajaxDnsList()`. */
  function DnsList(call: AjaxCall, c: Client, net: Net): (r: AjaxReply)
    ensures !call.nonceOk ==> r == NonceRejected
    ensures call.nonceOk && !call.canManage ==> r == Unauthorized
    ensures call.nonceOk && call.canManage ==>
              (r.JsonSuccess? <==> ListDnsRecords(c, net).Data?)
              && (r.JsonSuccess? ==> r.data == JObject([("records", ListDnsRecords(c, net).data)]))
              && (r.JsonError? ==> r == JsonError("dns_list_failed", ListDnsRecords(c, net).error.message, None))
  {
    if !call.nonceOk then NonceRejected
    else if !call.canManage then Unauthorized
    else match ListDnsRecords(c, net)
      case Error(e) => JsonError("dns_list_failed", e.message, None)
      case Data(d) => JsonSuccess(JObject([("records", d)]))
  }

  /** `ajaxDnsAdd()`: the record is checked before the Worker is called. */
  function DnsAdd(call: AjaxCall, c: Client, net: Net, sanitize: string -> string): (r: AjaxReply)
    ensures !call.nonceOk ==> r == NonceRejected
    ensures call.nonceOk && !call.canManage ==> r == Unauthorized
    ensures call.nonceOk && call.canManage && !ValidRecord(DnsRecord(call.post, sanitize)) ==>
              r == JsonError("invalid_input", "Record type, name, and content are required.", Some(400))
    ensures call.nonceOk && call.canManage && ValidRecord(DnsRecord(call.post, sanitize)) ==>
              var res := AddDnsRecord(c, net, DnsRecord(call.post, sanitize));
              && (r.JsonSuccess? <==> res.Data?)
              && (r.JsonSuccess? ==> r.data == JObject([("record", res.data)]))
              && (r.JsonError? ==> r == JsonError("dns_add_failed", res.error.message, None))
  {
    if !call.nonceOk then NonceRejected
    else if !call.canManage then Unauthorized
    else
      var record := DnsRecord(call.post, sanitize);
      if !ValidRecord(record) then JsonError("invalid_input", "Record type, name, and content are required.", Some(400))
      else match AddDnsRecord(c, net, record)
        case Error(e) => JsonError("dns_add_failed", e.message, None)
        case Data(d) => JsonSuccess(JObject([("record", d)]))
  }

  /** `ajaxDnsDelete()`: an empty id is refused before the Worker is called. */
  function DnsDelete(call: AjaxCall, c: Client, net: Net, sanitize: string -> string): (r: AjaxReply)
    ensures !call.nonceOk ==> r == NonceRejected
    ensures call.nonceOk && !call.canManage ==> r == Unauthorized
    ensures call.nonceOk && call.canManage && !TruthyString(sanitize(PostField(call.post, "id"))) ==>
              r == JsonError("invalid_input", "Record ID is required.", Some(400))
    ensures call.nonceOk && call.canManage && TruthyString(sanitize(PostField(call.post, "id"))) ==>
              var id := sanitize(PostField(call.post, "id"));
              var res := DeleteDnsRecord(c, net, id);
              && (r.JsonSuccess? <==> res.Data?)
              && (r.JsonSuccess? ==> r.data == JObject([("deleted", JStr(id))]))
              && (r.JsonError? ==> r == JsonError("dns_delete_failed", res.error.message, None))
  {
    if !call.nonceOk then NonceRejected
    else if !call.canManage then Unauthorized
    else
      var id := sanitize(PostField(call.post, "id"));
      if !TruthyString(id) then JsonError("invalid_input", "Record ID is required.", Some(400))
      else match DeleteDnsRecord(c, net, id)
        case Error(e) => JsonError("dns_delete_failed", e.message, None)
        case Data(_) => JsonSuccess(JObject([("deleted", JStr(id))]))
  }

  /** The Worker client the handlers create, from the option store. */
  function ClientOf(h: Host): (c: Client)
    reads h`options
    ensures Truthy(c.workerUrl) <==> "static_shield_cf_worker" in h.options && TruthyString(h.options["static_shield_cf_worker"])
  {
    Client(h.GetOption("static_shield_cf_worker"), h.GetOption("static_shield_cf_api_key"))
  }

  /** A refused request, or a record that fails validation, gets the same
      answer whatever the Worker would say: nothing reaches it. */
  lemma DnsAddRefusedOffline(call: AjaxCall, c: Client, net1: Net, net2: Net, sanitize: string -> string)
    requires !(call.nonceOk && call.canManage) || !ValidRecord(DnsRecord(call.post, sanitize))
    ensures DnsAdd(call, c, net1, sanitize) == DnsAdd(call, c, net2, sanitize)
  {
  }

  /** An accepted record is posted to `dns/add` of the configured Worker,
      and the handler succeeds exactly when the Worker answers 2xx. */
  lemma DnsAddSent(call: AjaxCall, c: Client, net: Net, sanitize: string -> string)
    requires call.nonceOk && call.canManage && ValidRecord(DnsRecord(call.post, sanitize))
    requires Truthy(c.workerUrl)
    ensures var record := DnsRecord(call.post, sanitize);
            var reply := net.send(HttpRequest(TrailingSlashIt(c.workerUrl.s) + "dns/add", "POST", Headers(c), 20, Some(record)));
            DnsAdd(call, c, net, sanitize).JsonSuccess? <==> reply.Reply? && 200 <= reply.status < 300
  {
    var record := DnsRecord(call.post, sanitize);
    assert JsonTruthy(record);
  }

  /** An accepted deletion is sent as `DELETE dns/delete/{id}`, and
      succeeds exactly when the Worker answers 2xx, echoing the id. */
  lemma DnsDeleteSent(call: AjaxCall, c: Client, net: Net, sanitize: string -> string)
    requires call.nonceOk && call.canManage && TruthyString(sanitize(PostField(call.post, "id")))
    requires Truthy(c.workerUrl)
    ensures var id := sanitize(PostField(call.post, "id"));
            var reply := net.send(HttpRequest(TrailingSlashIt(c.workerUrl.s) + "dns/delete/" + id, "DELETE", Headers(c), 20, None));
            && (DnsDelete(call, c, net, sanitize).JsonSuccess? <==> reply.Reply? && 200 <= reply.status < 300)
            && (DnsDelete(call, c, net, sanitize).JsonSuccess? ==> DnsDelete(call, c, net, sanitize).data == JObject([("deleted", JStr(id))]))
  {
  }

  /** Without a Worker URL an accepted request fails with the URL error's message. */
  lemma DnsListUnconfigured(call: AjaxCall, c: Client, net: Net)
    requires call.nonceOk && call.canManage && !Truthy(c.workerUrl)
    ensures DnsList(call, c, net) == JsonError("dns_list_failed", "Worker URL not configured", None)
  {
  }
}
