/** The static exporter: renders the site's pages into a build directory,
    copies the uploads and the wp-includes assets next to them and packs
    the result into a ZIP archive, logging every step. */
module Exporter {
  import opened Php
  import opened Paths
  import opened Host
  import opened Copying
  import opened Build

  /** The directory under the uploads directory that holds the exporter's output. */
  function BuildsDir(uploads: string): string {
    uploads + "/static-shield-builds"
  }

  /** The temporary build directory. */
  function BuildDir(uploads: string): string {
    BuildsDir(uploads) + "/temp"
  }

  /** The ZIP archive the export produces, next to the build directory. */
  function ZipPath(uploads: string): string {
    BuildsDir(uploads) + "/static-shield-builds.zip"
  }

  /** A log message before it is timestamped: its type and text. */
  datatype Message = Message(kind: string, text: string)

  /** The line `logEntry` formats for a message logged at `time`. */
  function LogLine(time: string, m: Message): string {
    "[" + time + "] [" + m.kind + "] " + m.text
  }

  /** The lines for `msgs` logged one after the other from the `t0`-th clock reading on. */
  function Stamp(clock: nat -> string, t0: nat, msgs: seq<Message>): (lines: seq<string>)
    ensures |lines| == |msgs|
    decreases |msgs|
  {
    if msgs == [] then []
    else Stamp(clock, t0, msgs[..|msgs| - 1]) + [LogLine(clock(t0 + |msgs| - 1), msgs[|msgs| - 1])]
  }

  /** The `i`-th line is the `i`-th message stamped with the `(t0 + i)`-th clock reading. */
  lemma {:induction false} StampAt(clock: nat -> string, t0: nat, msgs: seq<Message>, i: nat)
    requires i < |msgs|
    ensures Stamp(clock, t0, msgs)[i] == LogLine(clock(t0 + i), msgs[i])
    decreases |msgs|
  {
    if i < |msgs| - 1 {
      StampAt(clock, t0, msgs[..|msgs| - 1], i);
    }
  }

  lemma {:induction false} StampAppend(clock: nat -> string, t0: nat, a: seq<Message>, b: seq<Message>)
    ensures Stamp(clock, t0, a + b) == Stamp(clock, t0, a) + Stamp(clock, t0 + |a|, b)
    decreases |b|
  {
    if b == [] {
      assert a + b == a;
    } else {
      var b' := b[..|b| - 1];
      assert (a + b)[..|a + b| - 1] == a + b';
      StampAppend(clock, t0, a, b');
    }
  }

  /** A page or post as the exporter reads it: its ID and slug (`post_name`). */
  datatype Post = Post(id: nat, postName: string)

  /** What `wp_remote_get` returns: a `WP_Error` with its message, or a response with a body. */
  datatype Response = Failure(message: string) | Body(content: Bytes)

  /** The site an export run reads. Its HTTP client (`fetch`), the
      ZipArchive extension and `size_format` are given, not modelled. */
  datatype Site = Site(
    homeUrl: string,
    pages: seq<Post>,
    posts: seq<Post>,
    permalink: nat -> string,
    fetch: string -> Response,
    zipAvailable: bool,
    zipOpens: bool,
    sizeFormat: Node -> string)

  /** One URL to export and the file name in the build directory to save it as. */
  datatype Item = Item(url: string, filename: string)

  /** The file a page or post is saved as: its slug, or its ID when the slug
      is falsy, followed by ".html". The slug is not sanitised. */
  function ExportFilename(p: Post): (f: string)
    ensures EndsWith(f, ".html")
    ensures TruthyString(p.postName) ==> f[..|f| - 5] == p.postName
    ensures !TruthyString(p.postName) ==>
      (forall i :: 0 <= i < |f| - 5 ==> '0' <= f[i] <= '9') && DigitsValue(f[..|f| - 5]) == p.id
  {
    NatToStringValue(p.id);
    var stem := if TruthyString(p.postName) then p.postName else NatToString(p.id);
    assert (stem + ".html")[..|stem|] == stem;
    stem + ".html"
  }

  /** The exports of a list of pages or posts, URL from `get_permalink`. */
  function PostItems(site: Site, posts: seq<Post>): (items: seq<Item>)
    ensures |items| == |posts|
  {
    seq(|posts|, i requires 0 <= i < |posts| => Item(site.permalink(posts[i].id), ExportFilename(posts[i])))
  }

  /** Every export of a run: the home page as index.html, then the pages, then the posts. */
  function RunItems(site: Site): seq<Item> {
    [Item(site.homeUrl, "index.html")] + PostItems(site, site.pages) + PostItems(site, site.posts)
  }

  /** The arrow of the "Exported" message, as the characters the source file holds. */
  const Arrow: string := "\U{E2}\U{2020}\U{2019}"

  /** The message `exportUrl` logs for one export. */
  function ExportMessage(site: Site, item: Item): (m: Message)
    ensures m.kind == (if site.fetch(item.url).Failure? then "error" else "info")
  {
    match site.fetch(item.url)
    case Failure(msg) => Message("error", "Failed: " + item.url + " (" + msg + ")")
    case Body(_) => Message("info", "Exported: " + item.url + " " + Arrow + " " + item.filename)
  }

  function ExportMessages(site: Site, items: seq<Item>): (ms: seq<Message>)
    ensures |ms| == |items|
    decreases |items|
  {
    if items == [] then []
    else ExportMessages(site, items[..|items| - 1]) + [ExportMessage(site, items[|items| - 1])]
  }

  lemma ExportAllStep(fs: FileSystem, buildDir: string, site: Site, items: seq<Item>, i: nat)
    requires i < |items|
    ensures ExportAll(fs, buildDir, site, items[..i + 1])
         == Exported(ExportAll(fs, buildDir, site, items[..i]), buildDir, site, items[i])
  {
    assert items[..i + 1][..i] == items[..i];
  }

  lemma {:induction false} ExportAllAppend(fs: FileSystem, buildDir: string, site: Site, a: seq<Item>, b: seq<Item>)
    ensures ExportAll(fs, buildDir, site, a + b) == ExportAll(ExportAll(fs, buildDir, site, a), buildDir, site, b)
    decreases |b|
  {
    if b != [] {
      var b' := b[..|b| - 1];
      assert (a + b)[..|a + b| - 1] == a + b';
      ExportAllAppend(fs, buildDir, site, a, b');
    } else {
      assert a + b == a;
    }
  }

  lemma {:induction false} ExportMessagesAppend(site: Site, a: seq<Item>, b: seq<Item>)
    ensures ExportMessages(site, a + b) == ExportMessages(site, a) + ExportMessages(site, b)
    decreases |b|
  {
    if b == [] {
      assert a + b == a;
    } else {
      var b' := b[..|b| - 1];
      assert (a + b)[..|a + b| - 1] == a + b';
      ExportMessagesAppend(site, a, b');
    }
  }

  /** One more export adds its one message. */
  lemma ExportMessagesStep(site: Site, items: seq<Item>, i: nat)
    requires i < |items|
    ensures ExportMessages(site, items[..i + 1]) == ExportMessages(site, items[..i]) + [ExportMessage(site, items[i])]
  {
    assert items[..i + 1][..i] == items[..i];
  }

  /** The log after one more export. */
  lemma LogItemsStep(clock: nat -> string, t0: nat, site: Site, items: seq<Item>, i: nat,
                     l0: seq<string>, s0: seq<string>, l1: seq<string>, s1: seq<string>, t1: nat,
                     l2: seq<string>, s2: seq<string>, t2: nat)
    requires i < |items|
    requires l1 == l0 + Stamp(clock, t0, ExportMessages(site, items[..i]))
    requires s1 == s0 + Stamp(clock, t0, ExportMessages(site, items[..i]))
    requires t1 == t0 + |ExportMessages(site, items[..i])|
    requires l2 == l1 + Stamp(clock, t1, [ExportMessage(site, Item(items[i].url, items[i].filename))])
    requires s2 == s1 + Stamp(clock, t1, [ExportMessage(site, Item(items[i].url, items[i].filename))])
    requires t2 == t1 + |[ExportMessage(site, Item(items[i].url, items[i].filename))]|
    ensures l2 == l0 + Stamp(clock, t0, ExportMessages(site, items[..i + 1]))
    ensures s2 == s0 + Stamp(clock, t0, ExportMessages(site, items[..i + 1]))
    ensures t2 == t0 + |ExportMessages(site, items[..i + 1])|
  {
    ExportMessagesStep(site, items, i);
    LoggedStep(clock, t0, ExportMessages(site, items[..i]), [ExportMessage(site, items[i])], l0, s0, l1, s1, t1, l2, s2, t2);
  }

  /** The log after exporting `a` and then `b`. */
  lemma LogItemsJoin(clock: nat -> string, t0: nat, t1: nat, site: Site, a: seq<Item>, b: seq<Item>,
                     l0: seq<string>, l1: seq<string>, l2: seq<string>)
    requires t1 == t0 + |a|
    requires l1 == l0 + Stamp(clock, t0, ExportMessages(site, a))
    requires l2 == l1 + Stamp(clock, t1, ExportMessages(site, b))
    ensures l2 == l0 + Stamp(clock, t0, ExportMessages(site, a + b))
  {
    ExportMessagesAppend(site, a, b);
    LogChain(clock, t0, ExportMessages(site, a), ExportMessages(site, b), l0, l1, l2);
  }

  /** Two stretches of logging, one after the other, are one stretch. */
  lemma LogChain(clock: nat -> string, t0: nat, a: seq<Message>, b: seq<Message>,
                 l0: seq<string>, l1: seq<string>, l2: seq<string>)
    requires l1 == l0 + Stamp(clock, t0, a)
    requires l2 == l1 + Stamp(clock, t0 + |a|, b)
    ensures l2 == l0 + Stamp(clock, t0, a + b)
  {
    StampAppend(clock, t0, a, b);
  }

  /** The filesystem after one export: the body is written to the build
      directory when the fetch succeeded and the file can be written. */
  function Exported(fs: FileSystem, buildDir: string, site: Site, item: Item): (r: FileSystem)
    ensures forall q :: q in fs ==> q in r
    ensures forall q :: !Under(q, buildDir) ==> Kept(fs, r, q)
    ensures r != fs ==> site.fetch(item.url).Body? && r == fs[buildDir + "/" + item.filename := File(site.fetch(item.url).content)]
  {
    match site.fetch(item.url)
    case Failure(_) => fs
    case Body(html) =>
      var path := buildDir + "/" + item.filename;
      if PutOk(fs, path) then fs[path := File(html)] else fs
  }

  /** The filesystem after the exports `items`, in order. */
  function ExportAll(fs: FileSystem, buildDir: string, site: Site, items: seq<Item>): FileSystem
    decreases |items|
  {
    if items == [] then fs
    else Exported(ExportAll(fs, buildDir, site, items[..|items| - 1]), buildDir, site, items[|items| - 1])
  }

  /** The exports never remove an entry and change nothing outside the
      build directory. */
  lemma {:induction false} ExportAllKeeps(fs: FileSystem, buildDir: string, site: Site, items: seq<Item>, q: string)
    ensures q in fs ==> q in ExportAll(fs, buildDir, site, items)
    ensures !Under(q, buildDir) ==> Kept(fs, ExportAll(fs, buildDir, site, items), q)
    decreases |items|
  {
    if items != [] {
      ExportAllKeeps(fs, buildDir, site, items[..|items| - 1], q);
    }
  }

  /** The `foreach ($exclude as $ex)` test of `copyDir`: stops at the first
      exclusion prefix the path starts with. */
  method HasExcludedPrefix(path: string, exclude: seq<string>) returns (b: bool)
    ensures b == Excluded(path, exclude)
  {
    var i := 0;
    while i < |exclude|
      invariant 0 <= i <= |exclude|
      invariant forall j :: 0 <= j < i ==> !(exclude[j] <= path)
    {
      if exclude[i] <= path {
        return true;
      }
      i := i + 1;
    }
    return false;
  }

  /** A write by `exportUrl` never lands at or inside a directory `d` that is
      empty and whose name does not end in ".html". */
  lemma ExportedVacant(fs: FileSystem, buildDir: string, site: Site, item: Item, d: string)
    requires Vacant(fs, d) && |d| > 0
    requires EndsWith(item.filename, ".html") && !EndsWith(d, ".html")
    ensures Vacant(Exported(fs, buildDir, site, item), d)
  {
    var path := buildDir + "/" + item.filename;
    assert path[|path| - 5..] == item.filename[|item.filename| - 5..];
    if Under(path, d) {
      UnderAncestor(path, d);
    }
  }

  /** The same for a whole run of exports. */
  lemma {:induction false} ExportAllVacant(fs: FileSystem, buildDir: string, site: Site, items: seq<Item>, d: string)
    requires Vacant(fs, d) && |d| > 0 && !EndsWith(d, ".html")
    requires forall i :: 0 <= i < |items| ==> EndsWith(items[i].filename, ".html")
    ensures Vacant(ExportAll(fs, buildDir, site, items), d)
    decreases |items|
  {
    if items != [] {
      ExportAllVacant(fs, buildDir, site, items[..|items| - 1], d);
      ExportedVacant(ExportAll(fs, buildDir, site, items[..|items| - 1]), buildDir, site, items[|items| - 1], d);
    }
  }

  /** Every file a run exports to ends in ".html". */
  lemma RunItemsHtml(site: Site)
    ensures forall i :: 0 <= i < |RunItems(site)| ==> EndsWith(RunItems(site)[i].filename, ".html")
  {
    IndexHtml();
    var home := [Item(site.homeUrl, "index.html")];
    assert AllHtml(home);
    PostItemsHtml(site, site.pages);
    PostItemsHtml(site, site.posts);
    HtmlAppend(home, PostItems(site, site.pages));
    HtmlAppend(home + PostItems(site, site.pages), PostItems(site, site.posts));
  }

  /** Every item of `items` is saved under a ".html" name. */
  ghost predicate AllHtml(items: seq<Item>) {
    forall i :: 0 <= i < |items| ==> EndsWith(items[i].filename, ".html")
  }

  lemma PostItemsHtml(site: Site, posts: seq<Post>)
    ensures AllHtml(PostItems(site, posts))
  {
    var items := PostItems(site, posts);
    forall i | 0 <= i < |items| ensures EndsWith(items[i].filename, ".html") {
      assert items[i].filename == ExportFilename(posts[i]);
    }
  }

  lemma IndexHtml()
    ensures EndsWith("index.html", ".html")
  {
    assert "index.html"[5..] == ".html";
  }

  lemma HtmlAppend(a: seq<Item>, b: seq<Item>)
    requires AllHtml(a) && AllHtml(b)
    ensures AllHtml(a + b)
  {
    forall i | 0 <= i < |a + b| ensures EndsWith((a + b)[i].filename, ".html") {
      if i >= |a| {
        assert (a + b)[i] == b[i - |a|];
      }
    }
  }

  /** The copy of the uploads directory excludes the directory that holds the
      build, so it never reads from inside its own destination. */
  lemma UploadsApart(uploads: string)
    ensures Apart(uploads, BuildDir(uploads) + "/uploads", [BuildsDir(uploads)])
  {
    var e, dst := BuildsDir(uploads), BuildDir(uploads) + "/uploads";
    assert dst == e + "/temp/uploads";
    assert forall m :: |uploads| < m < |e| ==> e[m] != '/';
    forall q | Under(q, uploads) ensures AtOrUnder(q, dst) || Under(dst, q) ==> Excluded(q, [e]) {
      if AtOrUnder(q, dst) {
        assert q[..|e|] == e;
        assert [e][0] <= q;
      } else if Under(dst, q) {
        assert q + "/" == dst[..|q| + 1];
        assert dst[|q|] == '/';
        assert forall k :: |uploads| < k < |e| ==> dst[k] == e[k];
        assert |q| >= |e|;
        assert q[..|e|] == dst[..|e|] == e;
        assert [e][0] <= q;
      }
    }
  }

  /** The directories of a run inside the uploads directory are canonical. */
  lemma RunDirs(uploads: string)
    requires Canonical(uploads)
    ensures Canonical(BuildsDir(uploads)) && Canonical(BuildDir(uploads))
    ensures Canonical(BuildDir(uploads) + "/uploads")
    ensures Canonical(BuildDir(uploads) + "/wp-includes/js") && Canonical(BuildDir(uploads) + "/wp-includes/css")
  {
    PlainNames();
    RunLiterals();
    ChildCanonical(uploads, "static-shield-builds", "/static-shield-builds");
    ChildCanonical(BuildsDir(uploads), "temp", "/temp");
    var bd := BuildDir(uploads);
    ChildCanonical(bd, "uploads", "/uploads");
    GrandChildCanonical(bd, "wp-includes", "js", "/wp-includes/js");
    GrandChildCanonical(bd, "wp-includes", "css", "/wp-includes/css");
  }

  lemma RunLiterals()
    ensures "/static-shield-builds" == "/" + "static-shield-builds" && "/temp" == "/" + "temp"
    ensures "/uploads" == "/" + "uploads"
    ensures "/wp-includes/js" == "/" + "wp-includes" + "/" + "js"
    ensures "/wp-includes/css" == "/" + "wp-includes" + "/" + "css"
  {
  }

  /** `d + lit` is canonical when `lit` is a slash and a plain name. */
  lemma ChildCanonical(d: string, name: string, lit: string)
    requires Canonical(d) && Plain(name) && lit == "/" + name
    ensures Canonical(d + lit)
  {
    assert d + lit == d + "/" + name;
    ChildPathCanonical(d, name);
  }

  /** `d + lit` is canonical when `lit` is two plain names, each after a slash. */
  lemma GrandChildCanonical(d: string, a: string, b: string, lit: string)
    requires Canonical(d) && Plain(a) && Plain(b) && lit == "/" + a + "/" + b
    ensures Canonical(d + lit)
  {
    assert d + lit == d + "/" + a + "/" + b;
    GrandChild(d, a, b);
  }

  lemma PlainNames()
    ensures Plain("static-shield-builds") && Plain("temp") && Plain("uploads")
    ensures Plain("wp-includes") && Plain("js") && Plain("css")
  {
  }

  /** The copies' destinations inside a canonical build directory are canonical. */
  lemma BuildSubdirs(bd: string)
    requires Canonical(bd)
    ensures Canonical(bd + "/uploads")
    ensures Canonical(bd + "/wp-includes/js") && Canonical(bd + "/wp-includes/css")
  {
    PlainNames();
    assert bd + "/uploads" == bd + "/" + "uploads";
    assert bd + "/wp-includes/js" == bd + "/" + "wp-includes" + "/" + "js";
    assert bd + "/wp-includes/css" == bd + "/" + "wp-includes" + "/" + "css";
    ChildPathCanonical(bd, "uploads");
    GrandChild(bd, "wp-includes", "js");
    GrandChild(bd, "wp-includes", "css");
  }


  /** `d/a/b` is canonical for plain names `a` and `b`. */
  lemma GrandChild(d: string, a: string, b: string)
    requires Canonical(d) && Plain(a) && Plain(b)
    ensures Canonical(d + "/" + a) && Canonical(d + "/" + a + "/" + b)
  {
    ChildPathCanonical(d, a);
    ChildPathCanonical(d + "/" + a, b);
  }

  /** Two paths that differ at a position both have are apart. */
  lemma DifferAt(x: string, y: string, k: nat)
    requires k < |x| && k < |y| && x[k] != y[k]
    ensures Disjoint(x, y)
  {
    assert (x + "/")[k] == x[k] && (y + "/")[k] == y[k];
  }

  /** The archive is not inside the build directory, and the three copies'
      destinations are apart from each other. */
  lemma RunDirsApart(uploads: string)
    ensures !AtOrUnder(ZipPath(uploads), BuildDir(uploads))
    ensures Disjoint(BuildDir(uploads) + "/uploads", BuildDir(uploads) + "/wp-includes/js")
    ensures Disjoint(BuildDir(uploads) + "/uploads", BuildDir(uploads) + "/wp-includes/css")
    ensures Disjoint(BuildDir(uploads) + "/wp-includes/js", BuildDir(uploads) + "/wp-includes/css")
  {
    var bs, bd := BuildsDir(uploads), BuildDir(uploads);
    var z, u, j, c := ZipPath(uploads), bd + "/uploads", bd + "/wp-includes/js", bd + "/wp-includes/css";
    assert z[|bs| + 1] == 's' && bd[|bs| + 1] == 't';
    DifferAt(z, bd, |bs| + 1);
    assert u[|bd| + 1] == 'u' && j[|bd| + 1] == 'w' && c[|bd| + 1] == 'w';
    DifferAt(u, j, |bd| + 1);
    DifferAt(u, c, |bd| + 1);
    assert j[|bd| + 13] == 'j' && c[|bd| + 13] == 'c';
    DifferAt(j, c, |bd| + 13);
  }

  /** The messages `createZip` logs: an error when the extension is missing or
      the archive cannot be opened, nothing when the walk throws, otherwise
      the size of what was written. */
  function ZipMessages(site: Site, dirOk: bool, size: string): (ms: seq<Message>)
    ensures |ms| <= 1
    ensures (!site.zipAvailable || !site.zipOpens) <==> (|ms| == 1 && ms[0].kind == "error")
  {
    if !site.zipAvailable then [Message("error", "ZipArchive not available")]
    else if !site.zipOpens then [Message("error", "Failed to create ZIP archive")]
    else if !dirOk then []
    else [Message("info", "ZIP archive created (" + size + ")")]
  }

  /** `size_format(filesize($zipPath))`: `filesize` is false for a missing
      file, which prints as the empty string. */
  function SizeText(site: Site, fs: FileSystem, zipPath: string): string {
    if zipPath in fs then site.sizeFormat(fs[zipPath]) else ""
  }

  /** What `runExport` logs before its last line. */
  function RunMessages(site: Site, buildDir: string, zipMessages: seq<Message>): (ms: seq<Message>)
    ensures |ms| == 4 + |site.pages| + |site.posts| + 1 + |zipMessages|
  {
    StageMessages(site, buildDir) + zipMessages
  }

  /** What a run logs before it builds the archive. */
  function StageMessages(site: Site, buildDir: string): (ms: seq<Message>)
    ensures |ms| == 4 + |site.pages| + |site.posts| + 1
  {
    [Message("info", "Starting export..."), Message("info", "Build directory prepared: " + buildDir)]
    + ExportMessages(site, RunItems(site))
    + [Message("info", "Copied uploads directory"), Message("info", "Copied wp-includes assets")]
  }

  /** The last line of a finished run. */
  function FinishMessage(duration: string): Message {
    Message("info", "Export finished in " + duration + " seconds")
  }

  /** How `runExport` ends: it returns the archive's path, or the directory
      iterator's exception escapes it. */
  datatype Outcome = Finished(zipPath: string) | Threw

  /** The filesystem between the steps of a run. */
  datatype Stages = Stages(cleared: FileSystem, prepared: FileSystem, exported: FileSystem,
                           uploaded: FileSystem, scripts: FileSystem, assets: FileSystem)

  /** The steps of a run before the archive: the build directory is cleared
      and re-created, the pages exported, then the uploads, the scripts and the
      stylesheets copied in, each step starting from the state the previous one
      left. */
  ghost predicate Staged(fs0: FileSystem, st: Stages, site: Site, uploads: string, absPath: string, denied: set<string>) {
    var buildDir := BuildDir(uploads);
    && Prepared(fs0, st.cleared, st.prepared, buildDir, ZipPath(uploads), denied)
    && st.exported == ExportAll(st.prepared, buildDir, site, RunItems(site))
    && CopiedTree(st.exported, st.uploaded, uploads, buildDir + "/uploads", [BuildsDir(uploads)])
    && CopiedTree(st.uploaded, st.scripts, absPath + "wp-includes/js", buildDir + "/wp-includes/js", [])
    && CopiedTree(st.scripts, st.assets, absPath + "wp-includes/css", buildDir + "/wp-includes/css", [])
  }

  /** The archive and the build directory are apart. */
  lemma ArchiveApart(uploads: string)
    ensures Disjoint(ZipPath(uploads), BuildDir(uploads))
  {
    var bs, bd, z := BuildsDir(uploads), BuildDir(uploads), ZipPath(uploads);
    assert z[|bs| + 1] == 's' && bd[|bs| + 1] == 't';
    DifferAt(z, bd, |bs| + 1);
  }

  /** The steps after preparing write only inside the build directory:
      a path apart from it is kept. */
  lemma StagedKeepsApart(fs0: FileSystem, st: Stages, site: Site, uploads: string, absPath: string,
                         denied: set<string>, z: string)
    requires Staged(fs0, st, site, uploads, absPath, denied)
    requires Disjoint(z, BuildDir(uploads))
    ensures Kept(st.prepared, st.assets, z)
  {
    var bd := BuildDir(uploads);
    var u, j, c := bd + "/uploads", bd + "/wp-includes/js", bd + "/wp-includes/css";
    ExportAllKeeps(st.prepared, bd, site, RunItems(site), z);
    DisjointInside(z, bd, u);
    DisjointInside(z, bd, j);
    DisjointInside(z, bd, c);
    CopyKeepsApart(st.exported, st.uploaded, uploads, u, [BuildsDir(uploads)], z);
    CopyKeepsApart(st.uploaded, st.scripts, absPath + "wp-includes/js", j, [], z);
    CopyKeepsApart(st.scripts, st.assets, absPath + "wp-includes/css", c, [], z);
  }

  /** One more step of a run keeps the exporter's log, the stored log and
      the clock in step with the messages so far. */
  lemma LoggedStep(clock: nat -> string, t0: nat, acc: seq<Message>, m: seq<Message>,
                   l0: seq<string>, s0: seq<string>, l1: seq<string>, s1: seq<string>, t1: nat,
                   l2: seq<string>, s2: seq<string>, t2: nat)
    requires l1 == l0 + Stamp(clock, t0, acc) && s1 == s0 + Stamp(clock, t0, acc) && t1 == t0 + |acc|
    requires l2 == l1 + Stamp(clock, t1, m) && s2 == s1 + Stamp(clock, t1, m) && t2 == t1 + |m|
    ensures l2 == l0 + Stamp(clock, t0, acc + m) && s2 == s0 + Stamp(clock, t0, acc + m) && t2 == t0 + |acc + m|
  {
    LogChain(clock, t0, acc, m, l0, l1, l2);
    LogChain(clock, t0, acc, m, s0, s1, s2);
  }

  /** None of the copies' destinations ends in ".html". */
  lemma DestinationsNotHtml(buildDir: string)
    ensures !EndsWith(buildDir + "/uploads", ".html")
    ensures !EndsWith(buildDir + "/wp-includes/js", ".html")
    ensures !EndsWith(buildDir + "/wp-includes/css", ".html")
  {
    var u, j, c := buildDir + "/uploads", buildDir + "/wp-includes/js", buildDir + "/wp-includes/css";
    assert u[|u| - 1] == 's' && j[|j| - 1] == 's' && c[|c| - 1] == 's';
    assert ".html"[4] == 'l';
  }

  /** Into an empty build directory, the exports never write at or inside the
      copies' destinations. */
  lemma ExportsKeepVacant(fs: FileSystem, buildDir: string, site: Site)
    requires forall q :: q in fs ==> !Under(q, buildDir)
    ensures Vacant(ExportAll(fs, buildDir, site, RunItems(site)), buildDir + "/uploads")
    ensures Vacant(ExportAll(fs, buildDir, site, RunItems(site)), buildDir + "/wp-includes/js")
    ensures Vacant(ExportAll(fs, buildDir, site, RunItems(site)), buildDir + "/wp-includes/css")
  {
    var u, j, c := buildDir + "/uploads", buildDir + "/wp-includes/js", buildDir + "/wp-includes/css";
    forall q | q in fs ensures !AtOrUnder(q, u) && !AtOrUnder(q, j) && !AtOrUnder(q, c) {
      UnderOf(q, u, buildDir);
      UnderOf(q, j, buildDir);
      UnderOf(q, c, buildDir);
    }
    DestinationsNotHtml(buildDir);
    RunItemsHtml(site);
    ExportAllVacant(fs, buildDir, site, RunItems(site), u);
    ExportAllVacant(fs, buildDir, site, RunItems(site), j);
    ExportAllVacant(fs, buildDir, site, RunItems(site), c);
  }

  /** The messages of a run, step by step. */
  /** A run's log in three stretches: what the stages log, what building the
      archive logs, and the closing line (if any), each stamped from where the
      previous one stopped. */
  function RunLines(clock: nat -> string, t0: nat, stage: seq<Message>, zip: seq<Message>, tail: seq<Message>): seq<string> {
    Stamp(clock, t0, stage) + Stamp(clock, t0 + |stage|, zip) + Stamp(clock, t0 + |stage| + |zip|, tail)
  }

  /** The three stretches are the whole run's messages stamped in order. */
  lemma RunLinesStamp(clock: nat -> string, t0: nat, stage: seq<Message>, zip: seq<Message>, tail: seq<Message>)
    ensures RunLines(clock, t0, stage, zip, tail) == Stamp(clock, t0, stage + zip + tail)
  {
    StampAppend(clock, t0, stage, zip);
    StampAppend(clock, t0, stage + zip, tail);
  }

  /** A finished run's log has one line per message; it opens with
      "Starting export..." at the first clock reading and closes with the
      "Export finished" line at the last. */
  lemma RunLinesEnds(clock: nat -> string, t0: nat, site: Site, buildDir: string, zm: seq<Message>, duration: string)
    ensures var lines := RunLines(clock, t0, StageMessages(site, buildDir), zm, [FinishMessage(duration)]);
            && |lines| == |StageMessages(site, buildDir)| + |zm| + 1
            && lines[0] == LogLine(clock(t0), Message("info", "Starting export..."))
            && lines[|lines| - 1] == LogLine(clock(t0 + |lines| - 1), FinishMessage(duration))
  {
    var all := StageMessages(site, buildDir) + zm + [FinishMessage(duration)];
    RunLinesStamp(clock, t0, StageMessages(site, buildDir), zm, [FinishMessage(duration)]);
    StampAt(clock, t0, all, 0);
    StampAt(clock, t0, all, |all| - 1);
  }

  /** Chaining the three stretches a run logs. */
  lemma RunLog(clock: nat -> string, t0: nat, sm: seq<Message>, zm: seq<Message>, tail: seq<Message>,
               l0: seq<string>, l1: seq<string>, t1: nat, l2: seq<string>, t2: nat, l3: seq<string>)
    requires l1 == l0 + Stamp(clock, t0, sm) && t1 == t0 + |sm|
    requires l2 == l1 + Stamp(clock, t1, zm) && t2 == t1 + |zm|
    requires l3 == l2 + Stamp(clock, t2, tail)
    ensures l3 == l0 + RunLines(clock, t0, sm, zm, tail)
  {
    Regroup(l0, Stamp(clock, t0, sm), Stamp(clock, t1, zm), Stamp(clock, t2, tail));
  }

  lemma Regroup(l0: seq<string>, a: seq<string>, b: seq<string>, c: seq<string>)
    ensures l0 + a + b + c == l0 + (a + b + c)
  {
    assert l0 + a + b == l0 + (a + b);
  }

  lemma StageMessagesSteps(site: Site, buildDir: string)
    ensures StageMessages(site, buildDir)
         == [Message("info", "Starting export...")] + [Message("info", "Build directory prepared: " + buildDir)]
            + [ExportMessage(site, Item(site.homeUrl, "index.html"))]
            + ExportMessages(site, PostItems(site, site.pages) + PostItems(site, site.posts))
            + [Message("info", "Copied uploads directory")] + [Message("info", "Copied wp-includes assets")]
  {
    RunItemsSplit(map[], buildDir, site);
  }

  /** A run's exports are the home page followed by what `exportAllPages` exports. */
  lemma RunItemsSplit(fs: FileSystem, buildDir: string, site: Site)
    ensures ExportAll(fs, buildDir, site, RunItems(site))
         == ExportAll(Exported(fs, buildDir, site, Item(site.homeUrl, "index.html")), buildDir, site,
                      PostItems(site, site.pages) + PostItems(site, site.posts))
    ensures ExportMessages(site, RunItems(site))
         == [ExportMessage(site, Item(site.homeUrl, "index.html"))] + ExportMessages(site, PostItems(site, site.pages) + PostItems(site, site.posts))
  {
    var home, rest := [Item(site.homeUrl, "index.html")], PostItems(site, site.pages) + PostItems(site, site.posts);
    assert RunItems(site) == home + rest;
    ExportAllAppend(fs, buildDir, site, home, rest);
    ExportMessagesAppend(site, home, rest);
    assert home[..0] == [];
  }

  class Exporter {
    const host: Host
    /** `$uploads['basedir']`. */
    const uploads: string
    /** `ABSPATH`: the WordPress root, with a trailing slash. */
    const absPath: string
    /** `$this->buildDir`. */
    const buildDir: string := BuildDir(uploads)
    /** `$this->zipPath`. */
    const zipPath: string := ZipPath(uploads)
    /** The entries this exporter has logged. */
    var log: seq<string>

    constructor (host: Host, uploads: string, absPath: string)
      ensures this.host == host && this.uploads == uploads && this.absPath == absPath
      ensures buildDir == BuildDir(uploads) && zipPath == ZipPath(uploads)
      ensures log == []
    {
      this.host := host;
      this.uploads := uploads;
      this.absPath := absPath;
      log := [];
    }

    /** The exporter's log and the stored log have both grown by the lines for
        `msgs`, stamped from the `t0`-th clock reading on. */
    ghost predicate Logged(log0: seq<string>, store0: seq<string>, t0: nat, msgs: seq<Message>)
      reads this, host
    {
      && log == log0 + Stamp(host.clock, t0, msgs)
      && host.lastLog == store0 + Stamp(host.clock, t0, msgs)
      && host.tick == t0 + |msgs|
    }

    /** `getLog()`: the stored log. */
    function GetLog(): (r: seq<string>)
      reads host
      ensures r == host.lastLog
    {
      host.lastLog
    }

    /** `logEntry($message, $type)`: formats the entry with the current time
        and appends it to the stored log. */
    method LogEntry(message: string, kind: string) returns (entry: string)
      modifies host`lastLog, host`tick
      ensures entry == LogLine(host.clock(old(host.tick)), Message(kind, message))
      ensures host.lastLog == old(host.lastLog) + [entry] && host.tick == old(host.tick) + 1
    {
      var time := host.CurrentTime();
      entry := "[" + time + "] [" + kind + "] " + message;
      host.lastLog := host.lastLog + [entry];
    }

    /** `$this->log[] = $this->logEntry($message, $type)`. */
    method Log(message: string, kind: string)
      modifies this`log, host`lastLog, host`tick
      ensures Logged(old(log), old(host.lastLog), old(host.tick), [Message(kind, message)])
    {
      var entry := LogEntry(message, kind);
      log := log + [entry];
    }

    /** `exportUrl($url, $filename)`: fetches the URL and saves the body in the
        build directory. The write's own failure is not checked. */
    method ExportUrl(site: Site, url: string, filename: string)
      requires host.Valid()
      modifies this`log, host`fs, host`lastLog, host`tick
      ensures host.Valid()
      ensures host.fs == Exported(old(host.fs), buildDir, site, Item(url, filename))
      ensures Logged(old(log), old(host.lastLog), old(host.tick), [ExportMessage(site, Item(url, filename))])
    {
      var response := site.fetch(url);
      if response.Failure? {
        Log("Failed: " + url + " (" + response.message + ")", "error");
        return;
      }
      var html := response.content;
      var path := buildDir + "/" + filename;
      var _ := host.Put(path, File(html));
      Log("Exported: " + url + " " + Arrow + " " + filename, "info");
    }

    /** `exportAllPages()`: every page, then every post, under its permalink. */
    method ExportAllPages(site: Site)
      requires host.Valid()
      modifies this`log, host`fs, host`lastLog, host`tick
      ensures host.Valid()
      ensures host.fs == ExportAll(old(host.fs), buildDir, site, PostItems(site, site.pages) + PostItems(site, site.posts))
      ensures Logged(old(log), old(host.lastLog), old(host.tick),
                     ExportMessages(site, PostItems(site, site.pages) + PostItems(site, site.posts)))
    {
      ghost var fs0, log0, store0, t0 := host.fs, log, host.lastLog, host.tick;
      var pages, posts := PostItems(site, site.pages), PostItems(site, site.posts);
      ExportItems(site, pages);
      ghost var logMid, storeMid, t1 := log, host.lastLog, host.tick;
      ExportItems(site, posts);
      ExportAllAppend(fs0, buildDir, site, pages, posts);
      LogItemsJoin(host.clock, t0, t1, site, pages, posts, log0, logMid, log);
      LogItemsJoin(host.clock, t0, t1, site, pages, posts, store0, storeMid, host.lastLog);
    }

    /** Exports the items one after the other (the `foreach` loops of `exportAllPages`). */
    method ExportItems(site: Site, items: seq<Item>)
      requires host.Valid()
      modifies this`log, host`fs, host`lastLog, host`tick
      ensures host.Valid()
      ensures host.fs == ExportAll(old(host.fs), buildDir, site, items)
      ensures Logged(old(log), old(host.lastLog), old(host.tick), ExportMessages(site, items))
    {
      ghost var fs0, log0, store0, t0 := host.fs, log, host.lastLog, host.tick;
      for i := 0 to |items|
        invariant host.Valid()
        invariant host.fs == ExportAll(fs0, buildDir, site, items[..i])
        invariant Logged(log0, store0, t0, ExportMessages(site, items[..i]))
      {
        ghost var logMid, storeMid, tMid := log, host.lastLog, host.tick;
        ExportAllStep(fs0, buildDir, site, items, i);
        ExportUrl(site, items[i].url, items[i].filename);
        LogItemsStep(host.clock, t0, site, items, i, log0, store0, logMid, storeMid, tMid, log, host.lastLog, host.tick);
      }
      assert items[..|items|] == items;
    }

    /** Lines 59-68 of `runExport()`: the log is cleared and every step up to
        the archive runs; `st` holds the filesystem after each step. */
    method Stage(site: Site) returns (ghost st: Stages)
      requires host.Valid() && Canonical(uploads)
      requires forall q :: q in host.fs && Under(q, buildDir) ==> q !in host.denied
      requires Apart(absPath + "wp-includes/js", buildDir + "/wp-includes/js", [])
      requires Apart(absPath + "wp-includes/css", buildDir + "/wp-includes/css", [])
      modifies this`log, host`fs, host`lastLog, host`tick
      ensures host.Valid()
      ensures Staged(old(host.fs), st, site, uploads, absPath, host.denied)
      ensures host.fs == st.assets
      ensures log == old(log) + Stamp(host.clock, old(host.tick), StageMessages(site, buildDir))
      ensures host.lastLog == Stamp(host.clock, old(host.tick), StageMessages(site, buildDir))
      ensures host.tick == old(host.tick) + |StageMessages(site, buildDir)|
    {
      ghost var log0, t0 := log, host.tick;
      ghost var fs0 := host.fs;
      RunDirs(uploads);
      RunDirsApart(uploads);
      DestinationsNotHtml(buildDir);
      host.lastLog := [];
      Log("Starting export...", "info");
      ghost var acc := [Message("info", "Starting export...")];

      ghost var l, s, t := log, host.lastLog, host.tick;
      var cleared := PrepareBuildDir();
      LoggedStep(host.clock, t0, acc, [Message("info", "Build directory prepared: " + buildDir)], log0, [], l, s, t, log, host.lastLog, host.tick);
      acc := acc + [Message("info", "Build directory prepared: " + buildDir)];
      ghost var prepared := host.fs;
      PreparedClean(fs0, cleared, prepared, buildDir, zipPath, host.denied);

      l, s, t := log, host.lastLog, host.tick;
      var home := Item(site.homeUrl, "index.html");
      ExportUrl(site, site.homeUrl, "index.html");
      LoggedStep(host.clock, t0, acc, [ExportMessage(site, home)], log0, [], l, s, t, log, host.lastLog, host.tick);
      acc := acc + [ExportMessage(site, home)];

      l, s, t := log, host.lastLog, host.tick;
      ExportAllPages(site);
      ghost var rest := ExportMessages(site, PostItems(site, site.pages) + PostItems(site, site.posts));
      LoggedStep(host.clock, t0, acc, rest, log0, [], l, s, t, log, host.lastLog, host.tick);
      acc := acc + rest;
      ghost var exported := host.fs;
      RunItemsSplit(prepared, buildDir, site);
      ExportsKeepVacant(prepared, buildDir, site);

      l, s, t := log, host.lastLog, host.tick;
      CopyUploads();
      LoggedStep(host.clock, t0, acc, [Message("info", "Copied uploads directory")], log0, [], l, s, t, log, host.lastLog, host.tick);
      acc := acc + [Message("info", "Copied uploads directory")];
      ghost var uploaded := host.fs;
      CopyKeepsVacant(exported, uploaded, uploads, buildDir + "/uploads", [BuildsDir(uploads)], buildDir + "/wp-includes/js");
      CopyKeepsVacant(exported, uploaded, uploads, buildDir + "/uploads", [BuildsDir(uploads)], buildDir + "/wp-includes/css");

      l, s, t := log, host.lastLog, host.tick;
      var scripts := CopyWpIncludesAssets();
      LoggedStep(host.clock, t0, acc, [Message("info", "Copied wp-includes assets")], log0, [], l, s, t, log, host.lastLog, host.tick);
      acc := acc + [Message("info", "Copied wp-includes assets")];
      st := Stages(cleared, prepared, exported, uploaded, scripts, host.fs);
      StageMessagesSteps(site, buildDir);
    }

    /** `runExport()`. The clock reading that `round(microtime(true) - $startTime, 2)`
        prints is `duration`. `st` holds the filesystem after each step, `entries` the archive
        written and `zipMessages` what building it logged. The
        run needs every entry inside the build directory to be deletable, and
        the wp-includes asset directories to lie apart from the build. */
    method RunExport(site: Site, duration: string)
      returns (r: Outcome, ghost st: Stages, ghost entries: seq<ZipEntry>, ghost zipMessages: seq<Message>)
      requires host.Valid() && Canonical(uploads)
      requires forall q :: q in host.fs && Under(q, buildDir) ==> q !in host.denied
      requires Apart(absPath + "wp-includes/js", buildDir + "/wp-includes/js", [])
      requires Apart(absPath + "wp-includes/css", buildDir + "/wp-includes/css", [])
      modifies this`log, host`fs, host`lastLog, host`tick
      ensures host.Valid()
      ensures Staged(old(host.fs), st, site, uploads, absPath, host.denied)
      ensures if site.zipAvailable && site.zipOpens then Zipped(st.assets, host.fs, buildDir, zipPath, entries)
              else host.fs == st.assets
      ensures r == if site.zipAvailable && site.zipOpens && !IsDirIn(st.assets, buildDir) then Threw else Finished(zipPath)
      ensures zipMessages == ZipMessages(site, IsDirIn(st.assets, buildDir), SizeText(site, host.fs, zipPath))
      ensures r.Threw? ==>
                && log == old(log) + RunLines(host.clock, old(host.tick), StageMessages(site, buildDir), zipMessages, [])
                && host.lastLog == RunLines(host.clock, old(host.tick), StageMessages(site, buildDir), zipMessages, [])
      ensures r.Finished? ==>
                && log == old(log) + RunLines(host.clock, old(host.tick), StageMessages(site, buildDir), zipMessages, [FinishMessage(duration)])
                && host.lastLog == log
      ensures host.tick == old(host.tick) + |StageMessages(site, buildDir)| + |zipMessages| + if r.Finished? then 1 else 0
    {
      st := Stage(site);
      ghost var logStage, storeStage, tZip := log, host.lastLog, host.tick;
      var thrown;
      thrown, entries := CreateZip(site);
      zipMessages := ZipMessages(site, IsDirIn(st.assets, buildDir), SizeText(site, host.fs, zipPath));
      if thrown {
        RunLog(host.clock, old(host.tick), StageMessages(site, buildDir), zipMessages, [],
               old(log), logStage, tZip, log, host.tick, log);
        RunLog(host.clock, old(host.tick), StageMessages(site, buildDir), zipMessages, [],
               [], storeStage, tZip, host.lastLog, host.tick, host.lastLog);
        return Threw, st, entries, zipMessages;
      }
      ghost var logZip, tFin := log, host.tick;
      Log("Export finished in " + duration + " seconds", "info");
      host.lastLog := log;
      RunLog(host.clock, old(host.tick), StageMessages(site, buildDir), zipMessages, [FinishMessage(duration)],
             old(log), logStage, tZip, logZip, tFin, log);
      return Finished(zipPath), st, entries, zipMessages;
    }

    /** `rrmdir($dir)`: a recursive delete, or nothing when `dir` is not a directory. */
    method Rrmdir(dir: string)
      requires host.Valid()
      modifies host`fs
      ensures host.Valid()
      ensures if IsDirIn(old(host.fs), dir) then TreeRemoved(old(host.fs), host.fs, host.denied, dir)
              else host.fs == old(host.fs)
    {
      if !host.IsDir(dir) {
        return;
      }
      host.RemoveTree(dir);
    }

    /** `prepareBuildDir()`. `cleared` is the filesystem `rrmdir` leaves. */
    method PrepareBuildDir() returns (ghost cleared: FileSystem)
      requires host.Valid()
      modifies this`log, host`fs, host`lastLog, host`tick
      ensures host.Valid()
      ensures Prepared(old(host.fs), cleared, host.fs, buildDir, zipPath, host.denied)
      ensures Logged(old(log), old(host.lastLog), old(host.tick), [Message("info", "Build directory prepared: " + buildDir)])
    {
      if host.FileExists(buildDir) {
        Rrmdir(buildDir);
      }
      cleared := host.fs;
      var _ := host.MkdirP(buildDir);
      if host.FileExists(zipPath) {
        var _ := host.Unlink(zipPath);
      }
      Log("Build directory prepared: " + buildDir, "info");
    }

    /** `copyUploads()`: the uploads directory, without the exporter's own
        output, into `buildDir/uploads`. */
    method CopyUploads()
      requires host.Valid() && Canonical(uploads)
      requires Vacant(host.fs, buildDir + "/uploads")
      modifies this`log, host`fs, host`lastLog, host`tick
      ensures host.Valid()
      ensures CopiedTree(old(host.fs), host.fs, uploads, buildDir + "/uploads", [BuildsDir(uploads)])
      ensures Logged(old(log), old(host.lastLog), old(host.tick), [Message("info", "Copied uploads directory")])
    {
      RunDirs(uploads);
      UploadsApart(uploads);
      CopyDir(uploads, buildDir + "/uploads", [BuildsDir(uploads)]);
      Log("Copied uploads directory", "info");
    }

    /** `copyWpIncludesAssets()`: wp-includes/js, then wp-includes/css. `scripts`
        is the filesystem between the two copies. */
    method CopyWpIncludesAssets() returns (ghost scripts: FileSystem)
      requires host.Valid() && Canonical(uploads)
      requires Apart(absPath + "wp-includes/js", buildDir + "/wp-includes/js", [])
      requires Apart(absPath + "wp-includes/css", buildDir + "/wp-includes/css", [])
      requires Vacant(host.fs, buildDir + "/wp-includes/js") && Vacant(host.fs, buildDir + "/wp-includes/css")
      modifies this`log, host`fs, host`lastLog, host`tick
      ensures host.Valid()
      ensures CopiedTree(old(host.fs), scripts, absPath + "wp-includes/js", buildDir + "/wp-includes/js", [])
      ensures CopiedTree(scripts, host.fs, absPath + "wp-includes/css", buildDir + "/wp-includes/css", [])
      ensures Logged(old(log), old(host.lastLog), old(host.tick), [Message("info", "Copied wp-includes assets")])
    {
      RunDirs(uploads);
      RunDirsApart(uploads);
      ghost var fs0 := host.fs;
      CopyDir(absPath + "wp-includes/js", buildDir + "/wp-includes/js", []);
      scripts := host.fs;
      CopyKeepsVacant(fs0, scripts, absPath + "wp-includes/js", buildDir + "/wp-includes/js", [], buildDir + "/wp-includes/css");
      CopyDir(absPath + "wp-includes/css", buildDir + "/wp-includes/css", []);
      Log("Copied wp-includes assets", "info");
    }

    /** `createZip()`. `thrown` says the directory iterator threw because the
        build directory is not a directory. */
    method CreateZip(site: Site) returns (thrown: bool, ghost archive: seq<ZipEntry>)
      requires host.Valid()
      modifies this`log, host`fs, host`lastLog, host`tick
      ensures host.Valid()
      ensures thrown == (site.zipAvailable && site.zipOpens && !IsDirIn(old(host.fs), buildDir))
      ensures if site.zipAvailable && site.zipOpens then Zipped(old(host.fs), host.fs, buildDir, zipPath, archive)
              else host.fs == old(host.fs)
      ensures Logged(old(log), old(host.lastLog), old(host.tick),
                     ZipMessages(site, IsDirIn(old(host.fs), buildDir), SizeText(site, host.fs, zipPath)))
    {
      archive := [];
      if !site.zipAvailable {
        Log("ZipArchive not available", "error");
        return false, archive;
      }
      if !site.zipOpens {
        Log("Failed to create ZIP archive", "error");
        return false, archive;
      }
      if !host.IsDir(buildDir) {
        return true, archive;
      }
      var files := host.Walk(buildDir);
      var entries := ZipEntries(files);
      archive := entries;
      if entries != [] {
        var _ := host.Put(zipPath, Archive(entries));
      }
      var size := if host.FileExists(zipPath) then site.sizeFormat(host.fs[zipPath]) else "";
      Log("ZIP archive created (" + size + ")", "info");
      thrown := false;
    }

    /** The loop of `createZip()` over the walked paths: a directory entry for
        each directory, a file entry with its contents for each file. */
    method ZipEntries(files: seq<string>) returns (entries: seq<ZipEntry>)
      requires host.Valid() && Listed(host.fs, buildDir, files)
      ensures Packs(host.fs, buildDir, entries)
      ensures entries != [] <==> Sub(host.fs, buildDir) != {}
    {
      entries := [];
      for i := 0 to |files|
        invariant Manifest(host.fs, buildDir, files[..i], entries)
      {
        var filePath := files[i];
        var relativePath := filePath[|buildDir| + 1..];
        var entry := if host.IsDir(filePath) then ZipEntry(relativePath, Dir)
                     else ZipEntry(relativePath, host.fs[filePath]);
        ManifestStep(host.fs, buildDir, files, i, entries, entry);
        entries := entries + [entry];
      }
      ZipDone(host.fs, buildDir, files, entries);
    }

    /** `copyDir($src, $dst, $exclude)`. The destination must be empty and
        must not overlap the part of `src` that is copied. */
    method CopyDir(src: string, dst: string, exclude: seq<string>)
      requires host.Valid() && Canonical(dst)
      requires Apart(src, dst, exclude) && Vacant(host.fs, dst)
      modifies host`fs
      ensures host.Valid()
      ensures if IsDirIn(old(host.fs), src) && MkdirOk(old(host.fs), dst)
              then Mirrored(Mkdir(old(host.fs), dst), host.fs, src, dst, exclude)
              else host.fs == old(host.fs)
      decreases |LiveSet(host.fs, src, exclude)|
    {
      if !host.IsDir(src) {
        return;
      }
      ghost var fs0 := host.fs;
      ghost var ok := MkdirOk(fs0, dst);
      var _ := host.MkdirP(dst);
      ghost var base := host.fs;
      MkdirFills(fs0, dst);
      var todo := set c | c in host.fs && ChildOf(c, src);
      ghost var kids := todo;
      if ok {
        CopyStart(base, src, dst, exclude, kids);
      }
      while todo != {}
        invariant host.Valid()
        invariant todo <= kids
        invariant forall c :: c in kids ==> c in base && ChildOf(c, src)
        invariant ok ==> CopiedSoFar(base, host.fs, src, dst, exclude, kids, todo)
        invariant !ok ==> host.fs == fs0
        decreases |todo|
      {
        var c :| c in todo;
        ChildName(c, src);
        var name := c[|src| + 1..];
        var srcPath := src + "/" + name;
        var dstPath := dst + "/" + name;
        var skip := HasExcludedPrefix(srcPath, exclude);
        if skip {
          if ok {
            CopySkip(base, host.fs, src, dst, exclude, kids, todo, c);
          }
        } else {
          ghost var fsB := host.fs;
          ChildPath(dst, name);
          ApartChild(src, dst, exclude, name);
          if ok {
            LiveStable(fs0, fsB, src, dst, exclude);
            VacantChild(base, fsB, src, dst, exclude, kids, todo, c, name);
            MkdirChild(fs0, fsB, dst, name);
          } else {
            MkdirBlocked(fs0, dst, name);
            VacantInside(fs0, dst, name);
          }
          if host.IsDir(srcPath) {
            LiveShrinks(fs0, fsB, src, exclude, c);
            CopyDir(srcPath, dstPath, exclude);
            if ok {
              CopySubdir(base, fsB, host.fs, src, dst, exclude, kids, todo, c, name);
            }
          } else {
            var _ := host.CopyFile(srcPath, dstPath);
            if ok {
              CopyFile(base, fsB, host.fs, src, dst, exclude, kids, todo, c, name);
            }
          }
        }
        todo := todo - {c};
      }
      if ok {
        CopyFinish(base, host.fs, src, dst, exclude, kids);
      }
    }
  }

  /** One step of the walk loop: the entry for the next path extends the manifest. */
  lemma ManifestStep(fs: FileSystem, dir: string, files: seq<string>, i: nat, entries: seq<ZipEntry>, e: ZipEntry)
    requires i < |files| && Manifest(fs, dir, files[..i], entries)
    requires files[i] in fs && Under(files[i], dir)
    requires e == ZipEntry(files[i][|dir| + 1..], fs[files[i]])
    ensures Manifest(fs, dir, files[..i + 1], entries + [e])
  {
    assert files[..i + 1] == files[..i] + [files[i]];
  }

  /** After the walk, the manifest packs the build directory and is empty
      exactly when the directory is. */
  lemma ZipDone(fs: FileSystem, dir: string, files: seq<string>, entries: seq<ZipEntry>)
    requires Listed(fs, dir, files) && Manifest(fs, dir, files[..|files|], entries)
    ensures Packs(fs, dir, entries)
    ensures entries != [] <==> Sub(fs, dir) != {}
  {
    assert files[..|files|] == files;
    if Sub(fs, dir) != {} {
      var q :| q in Sub(fs, dir);
      assert q in files;
    }
    if files != [] {
      assert files[0] in Sub(fs, dir);
    }
  }
}
