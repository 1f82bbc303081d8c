# Static Shield, modelled in Dafny

Static Shield is a WordPress plugin that takes a static snapshot of a site
and can publish it. This project models the core of the plugin and proves
properties of the model.

- **Export.** A run clears a temporary build directory under the uploads directory. It saves the home page, every page and every post as an `.html` file there, then copies the uploads directory (without the exporter's own output) and the `wp-includes` scripts and stylesheets into it. Finally it packs the directory into `static-shield-builds.zip`. Every step writes a `[time] [type] message` line both to the exporter's own log and to the stored option `static_shield_last_log`.
- **Deploy.** The deployer uploads the archive to a Cloudflare R2 bucket through the S3 API, after checking the archive and the R2 settings.
- **Worker client.** A client of the plugin's Cloudflare Worker manages DNS records over an authenticated JSON API.
- **Redirect.** The front-end handler sends every request to the Worker when Worker serving is switched on.
- **Admin.** The admin page runs the export and the optional upload by hand or after a post update, and keeps a queue of notices in a transient so that they survive redirects. Its AJAX handlers validate DNS input before calling the Worker.
- **Admin script.** The admin script escapes HTML, colours log lines and chooses the tab to open.
- **Uninstall.** The uninstall script deletes the version option and the builds directory.

## How the model is organised

Modules follow the program:

| module | file |
|---|---|
| `Exporter` | `exporter.dfy` |
| `Deployer` | `deployer.dfy` |
| `WorkerClient` | `worker_client.dfy` |
| `WorkerHandler` | `worker_handler.dfy` |
| `Admin` | `admin.dfy` |
| `AdminJs` | `admin_js.dfy` |
| `Uninstall` | `uninstall.dfy` |

They rest on four supporting modules:

- `Php` (`php.dfy`) holds the few PHP semantics the plugin relies on: truthiness, `rtrim`/`ltrim`/`trim`, `trailingslashit`, `basename` and `intval`.
- `Paths` (`paths.dfy`) covers absolute `/`-separated path strings.
- `Host` (`host.dfy`) is the WordPress host:
  - the filesystem, as a map from canonical paths to files, directories and ZIP archives;
  - the option store, the stored log and the notice transient;
  - a clock, read through `current_time`;
  - the set of paths the PHP process may not delete.
- `Copying` (`copy.dfy`) and `Build` (`build.dfy`) hold the specifications of the recursive copy, the build preparation and the archive.

The exporter, deployer, admin and host are classes whose methods change the
host's fields in place. Loops stay loops:

- `copyDir` loops over the directory's entries.
- The recursive delete and the directory walk each loop over a directory's children.
- `createZip` loops over the walked paths.
- `printNotices` loops over the queued notices.

Each of these methods is proved against a specification function or predicate, and the properties are lemmas about those. The worker client, the redirect, the AJAX handlers and the admin script's helpers are pure in the source and are functions here.

External services and non-deterministic inputs become parameters of the model:

- **`Site`:** the site itself. This is what `wp_remote_get` returns per URL, the pages and posts, `get_permalink`, `home_url`, whether `ZipArchive` exists and opens, and `size_format`.
- **`R2`:** the object store's answer to `putObject`.
- **`Net`:** `wp_remote_request` and `json_decode`.
- **String functions:** `is_readable`, `sanitize_text_field`, `wp_kses_post` and `esc_url`, each as a function on strings.
- **Bools:** the nonce and capability checks.

Two details follow the source literally:

- Export file names are not sanitised; they are the post's slug, or its ID when the slug is falsy.
- The "Exported" log line carries the arrow as the three characters the source file actually holds (`â†’`).

## Model

| member | source | states |
|---|---|---|
| Exporter.Exporter.RunExport | includes/StaticShieldExporter.php:58-78 | a run clears, prepares, exports, copies and zips in that order, each step on the state the previous left; it returns the archive path unless the directory iterator throws; the stored log equals the in-memory log afterwards and is exactly the run's messages stamped in order |
| Exporter.RunLinesEnds | includes/StaticShieldExporter.php:59-75 | a finished run's log has one line per message, opens with "Starting export..." and closes with "Export finished in ... seconds" |
| Exporter.Exporter.Stage | includes/StaticShieldExporter.php:59-68 | the steps before the archive run in the fixed order with the log cleared first |
| Exporter.Exporter.GetLog | includes/StaticShieldExporter.php:85-87 | the log returned is the stored log |
| Exporter.Exporter.PrepareBuildDir | includes/StaticShieldExporter.php:92-103 | the build tree is removed when it exists, the build directory re-created, the stale archive unlinked, and one line logged |
| Build.PreparedClean | includes/StaticShieldExporter.php:92-103 | with nothing protected, preparation leaves the build directory existing and empty (when it can be created) and no file at the archive path, and changes nothing else but the build directory's ancestors |
| Build.ClearedEmpty | includes/StaticShieldExporter.php:93-95 | when nothing inside the build directory is protected, the recursive delete leaves nothing inside it and changes nothing outside it |
| Exporter.Exporter.Rrmdir | includes/StaticShieldExporter.php:207-219 | a non-directory is left alone; otherwise the tree is removed as `RemoveTree` states |
| Host.Host.RemoveTree | includes/StaticShieldExporter.php:207-219 | exactly the entries at or inside the directory that may not be deleted, and the directories still holding one, survive; everything else inside goes and everything outside keeps its content |
| Exporter.Exporter.ExportUrl | includes/StaticShieldExporter.php:111-124 | a transport error writes nothing and logs an error line; otherwise the body is written to `buildDir/filename` whatever the status (when that path can be written), and an info line is logged either way |
| Exporter.Exported | includes/StaticShieldExporter.php:111-124 | one export never removes an entry, changes nothing outside the build directory, and changes the filesystem only by writing the fetched body at `buildDir/filename` |
| Exporter.ExportAllKeeps | includes/StaticShieldExporter.php:129-139 | the exports of a run, one after the other, never remove an entry and change nothing outside the build directory |
| Exporter.ExportMessage | includes/StaticShieldExporter.php:114-123 | the line's type is "error" exactly when the fetch failed |
| Exporter.Exporter.ExportAllPages | includes/StaticShieldExporter.php:129-139 | every page, then every post, is exported in order under its permalink, later files overwriting earlier ones of the same name |
| Exporter.Exporter.ExportItems | includes/StaticShieldExporter.php:131-138 | the exports run one after the other, the filesystem and both logs following the items in order |
| Exporter.ExportFilename | includes/StaticShieldExporter.php:132 | the name ends in ".html"; its stem is the slug when the slug is truthy, otherwise the decimal digits of the ID |
| Exporter.RunItemsHtml | includes/StaticShieldExporter.php:65-66 | every file a run exports to has a ".html" name, `index.html` first |
| Exporter.ExportsKeepVacant | includes/StaticShieldExporter.php:65-68 | into an empty build directory, the exports never write at or inside the copies' destinations |
| Exporter.Exporter.CopyUploads | includes/StaticShieldExporter.php:144-154 | the uploads directory is mirrored into `buildDir/uploads`, skipping every path that starts with the builds directory |
| Exporter.UploadsApart | includes/StaticShieldExporter.php:147-151 | the exclusion prefix covers the build directory, so the copy never reads from inside its own destination |
| Exporter.Exporter.CopyWpIncludesAssets | includes/StaticShieldExporter.php:159-163 | `wp-includes/js`, then `wp-includes/css`, are mirrored into the build directory, and one line is logged |
| Exporter.RunDirsApart | includes/StaticShieldExporter.php:46-48 | the archive is outside the build directory and the three copy destinations are apart from one another |
| Exporter.Exporter.CreateZip | includes/StaticShieldExporter.php:168-200 | a missing extension or a failed open logs an error and writes no archive; a missing build directory throws; otherwise the archive holds the walk's manifest and its size is logged |
| Exporter.ZipMessages | includes/StaticShieldExporter.php:169-199 | at most one line is logged, and it is an error exactly when the extension is missing or the open fails |
| Exporter.Exporter.ZipEntries | includes/StaticShieldExporter.php:185-194 | the entries are the manifest of the walk, empty exactly when the build directory is |
| Host.Host.Walk | includes/StaticShieldExporter.php:180-185 | every entry inside the directory is listed exactly once, each directory ahead of what it holds |
| Build.PacksExtract | includes/StaticShieldExporter.php:180-196 | unpacking the archive into the build directory gives back exactly the build tree |
| Build.PacksOrder | includes/StaticShieldExporter.php:180-194 | entry names are distinct and each directory's entry precedes its contents |
| Build.ManifestName | includes/StaticShieldExporter.php:186-187 | an entry's name is its path with the build directory and one '/' cut off |
| Exporter.Exporter.CopyDir | includes/StaticShieldExporter.php:228-252 | nothing changes unless the source is a directory and the destination can be created; then the destination mirrors every source entry not under an excluded prefix, files with their content |
| Exporter.HasExcludedPrefix | includes/StaticShieldExporter.php:239-243 | true exactly when the path starts with one of the exclusion strings |
| Copying.ExcludedPrefix | includes/StaticShieldExporter.php:239-243 | an excluded path excludes everything inside it (the test is on raw string prefixes) |
| Exporter.Exporter.LogEntry | includes/StaticShieldExporter.php:262-271 | the entry is `[time] [type] message` with the next clock reading, appended to the stored log |
| Exporter.Exporter.Log | includes/StaticShieldExporter.php:61 | the same entry is appended to the exporter's log and to the stored log |
| Exporter.StampAt | includes/StaticShieldExporter.php:262-268 | the i-th line of a stretch of logging is the i-th message with the i-th clock reading |
| Host.Host.MkdirP | includes/StaticShieldExporter.php:96 | `wp_mkdir_p` succeeds when the path and its existing ancestors are directories, creating the missing ones |
| Host.Host.Put | includes/StaticShieldExporter.php:122 | a file is written exactly when the path is canonical, its parent directory exists and the path is not a directory |
| Host.Host.CopyFile | includes/StaticShieldExporter.php:248 | a file is copied exactly when the source is a file and the target is writable |
| Host.Host.Unlink | includes/StaticShieldExporter.php:215 | only an existing file the process may delete is removed |
| Host.Host.Rmdir | includes/StaticShieldExporter.php:218 | only an empty directory the process may delete is removed |
| Host.Host.CurrentTime | includes/StaticShieldExporter.php:263 | the time is the next clock reading |
| Host.Host.GetOption | includes/StaticShieldExporter.php:86 | the stored string, or `false` for a missing option |
| Deployer.Deployer.constructor | includes/StaticShieldDeployer.php:62-67 | the four R2 settings are read from their options |
| Deployer.SettingsOf | includes/StaticShieldDeployer.php:62-67 | the settings are complete exactly when all four R2 options are set and truthy |
| Deployer.Deployer.UploadToR2 | includes/StaticShieldDeployer.php:77-108 | the result is that of `Attempt`, and exactly one line, its message, is appended to the stored log |
| Deployer.Attempt | includes/StaticShieldDeployer.php:77-108 | a call is made exactly when the archive exists and is readable and all four settings are truthy, and it is `putObject` of the bucket, `basename` key, the path and `application/zip` through the R2 client |
| Deployer.MissingArchiveFails | includes/StaticShieldDeployer.php:78-81 | a missing or unreadable archive fails before the settings are looked at, without any call |
| Deployer.UnconfiguredFails | includes/StaticShieldDeployer.php:83-86 | a falsy setting fails without any call |
| Deployer.UploadResult | includes/StaticShieldDeployer.php:99-107 | success exactly when `putObject` returns; the log names the ETag or "N/A"; an `AwsException` becomes a failure with its message |
| Deployer.UploadedMessage | includes/StaticShieldDeployer.php:99-100 | the success message ends in the ETag, or "N/A" without one |
| Deployer.ExportArchiveKey | includes/StaticShieldDeployer.php:88 | the exporter's archive is stored under the key "static-shield-builds.zip" |
| Deployer.S3Client | includes/StaticShieldDeployer.php:115-124 | region "auto", version "latest", and the account's R2 endpoint |
| Deployer.Endpoint | includes/StaticShieldDeployer.php:120 | "https://", then the account id, then ".r2.cloudflarestorage.com" |
| Deployer.EndpointInjective | includes/StaticShieldDeployer.php:120 | distinct accounts get distinct endpoints |
| Deployer.Deployer.Log | includes/StaticShieldDeployer.php:137-143 | one "info" line is appended to the stored log, nothing truncated |
| WorkerClient.Outgoing | includes/StaticShieldWorkerClient.php:44-64 | no request without a truthy Worker URL; otherwise the method, JSON and bearer headers, timeout 20, the joined URL, and a body exactly when the given body is truthy |
| WorkerClient.RequestUrl | includes/StaticShieldWorkerClient.php:62 | the Worker URL without trailing slashes, one '/', then the endpoint without leading slashes |
| WorkerClient.Classify | includes/StaticShieldWorkerClient.php:66-77 | a transport error is passed through; 2xx gives the decoded body; any other status gives `worker_error` carrying the decoded body |
| WorkerClient.Request | includes/StaticShieldWorkerClient.php:43-78 | without a Worker URL every request fails with `missing_worker_url`, whatever the network would answer; with one, the result is the classification of the reply to the built request, data exactly for a 2xx status |
| WorkerClient.ListDnsRecords | includes/StaticShieldWorkerClient.php:85-87 | listing sends `GET dns/list` without a body, or fails with `missing_worker_url` |
| WorkerClient.AddDnsRecord | includes/StaticShieldWorkerClient.php:96-98 | adding sends `POST dns/add` with the record as body when it is truthy, or fails with `missing_worker_url` |
| WorkerClient.DeleteDnsRecord | includes/StaticShieldWorkerClient.php:107-109 | deleting sends `DELETE dns/delete/{id}` without a body, the id appended verbatim, or fails with `missing_worker_url` |
| WorkerHandler.ServeStatic | includes/StaticShieldWorkerHandler.php:42-56 | a redirect happens exactly when `static_shield_use_cf` is truthy and the trimmed Worker URL is non-empty; it is a 302 to the URL without trailing '/', then the request URI (default "/") |
| WorkerHandler.TrailingSlashIgnored | includes/StaticShieldWorkerHandler.php:47-53 | a trailing slash on the Worker URL does not change the target |
| Admin.Deploy | admin/StaticShieldAdmin.php:199-218 | the export's exception passes through; a falsy or missing archive fails with the "archive not created" notice; with `static_shield_use_cf` set the upload is attempted, and its failure fails with the "Upload to R2 failed" notice; otherwise the archive path is returned and no notice queued |
| Admin.UploadOnlyWhenEnabled | admin/StaticShieldAdmin.php:208-217 | with `static_shield_use_cf` off no upload is attempted and the result does not depend on it |
| Admin.Admin.Export | admin/StaticShieldAdmin.php:200-201 | a fresh exporter's run, with `RunExport`'s effects: the stages over the old filesystem, the archive built or not, the return value (the exception exactly when the build directory is missing at zip time with the extension usable), and the stored log being exactly the run's lines |
| Admin.ArchivedRunSucceeds | admin/StaticShieldAdmin.php:199-218 | a run whose build directory is a non-empty directory and whose archive can be written returns the archive path, the archive holds the build tree's manifest, and with `static_shield_use_cf` off the run succeeds with no notice |
| Admin.ThrownRunPropagates | admin/StaticShieldAdmin.php:199-201 | when the build directory is gone at zip time the exception escapes: nothing is queued or uploaded and the filesystem is what the steps before the archive left |
| Admin.UnzippedRunFails | admin/StaticShieldAdmin.php:201-205 | without a usable `ZipArchive` (and a deletable stale archive that is not a directory) no archive is left and the run fails with the "archive not created" notice |
| Build.PreparedDropsArchive | includes/StaticShieldExporter.php:97-99 | a deletable stale archive that is not a directory is gone after preparing |
| Exporter.StagedKeepsApart | includes/StaticShieldExporter.php:65-68 | the exports and the three copies change no path apart from the build directory |
| Build.CopyKeepsApart | includes/StaticShieldExporter.php:228-252 | a copy into a destination keeps every path apart from the destination as it was |
| Admin.Admin.Config | admin/StaticShieldAdmin.php:208-209 | the deploy step's settings are the deployer's R2 settings, and the upload is switched on exactly when `static_shield_use_cf` is set and truthy |
| Admin.Admin.Deliver | admin/StaticShieldAdmin.php:203-217 | after the export, the result and queued notices are those of `Deploy`; the upload's log line and clock reading are added exactly when the upload is attempted |
| Admin.Admin.RunExportAndDeploy | admin/StaticShieldAdmin.php:199-218 | the export runs as `RunExport` states over the old filesystem; the result and notices are then `Deploy`'s for that run's outcome, the archive's presence, the option and the upload's result; the stored log is the export's lines followed by the upload's line only when it is attempted |
| Admin.Admin.HandleManualExport | admin/StaticShieldAdmin.php:226-256 | no form: nothing happens; a failed nonce ends the request with nothing changed; a missing capability queues its error notice and redirects without exporting; otherwise the run of `RunExportAndDeploy` happens, its notices are queued followed by the download notice exactly when it returned the archive, and the handler redirects to the plugin page (or the export's exception escapes) |
| Admin.DownloadUrlIsArchive | admin/StaticShieldAdmin.php:245 | the download link is the archive path with the uploads directory replaced by its URL |
| Admin.Admin.HandlePostUpdate | admin/StaticShieldAdmin.php:268-279 | autosaves, revisions and new posts change nothing; an update performs the run of `RunExportAndDeploy` and queues its notices followed by the "regenerated" notice exactly when it returned the archive |
| Admin.Admin.Regenerate | admin/StaticShieldAdmin.php:273-278 | the update branch: the run of `RunExportAndDeploy` over the old state, then its notices followed by the "regenerated" notice exactly when it returned the archive |
| Admin.Admin.AddNotice | admin/StaticShieldAdmin.php:305-314 | exactly one notice is appended; a transient that is not a list is treated as empty |
| Admin.QueuedOrder | admin/StaticShieldAdmin.php:305-314 | queueing keeps the earlier notices in front, and two batches queue as one |
| Admin.Admin.PrintNotices | admin/StaticShieldAdmin.php:322-337 | the queued notices' markup in order; a non-empty queue is deleted, an empty or non-list one is printed as nothing and left |
| Admin.NoticeClass | admin/StaticShieldAdmin.php:329-331 | `error` gives `notice-error`, `warning` gives `notice-warning`, anything else `notice-success` |
| Admin.NoticesHtml | admin/StaticShieldAdmin.php:328-334 | one block per notice, the i-th block for the i-th notice |
| Admin.NoticesHtmlAppend | admin/StaticShieldAdmin.php:322-337 | notices queued in two batches print as the first batch, then the second |
| Admin.ClientOf | includes/StaticShieldWorkerClient.php:29-32 | the client the handlers create has a usable Worker URL exactly when the `static_shield_cf_worker` option is set and truthy |
| Admin.DnsList | admin/StaticShieldAdmin.php:401-416 | nonce, then capability (403), then the Worker's list as `records`, or `dns_list_failed` with the error's message |
| Admin.DnsListUnconfigured | admin/StaticShieldAdmin.php:408-413 | without a Worker URL the list fails with "Worker URL not configured" |
| Admin.DnsRecord | admin/StaticShieldAdmin.php:431-437 | the sanitised type, name and content; ttl 3600 when absent and `intval` of the field when posted; proxied false unless present and truthy |
| Admin.DnsRecordTtlUnread | admin/StaticShieldAdmin.php:435 | a posted ttl holding no digit, such as `""` or `abc`, is 0, not the 3600 of an absent field |
| Admin.DnsRecordTtl | admin/StaticShieldAdmin.php:435 | a posted ttl that is the decimal form of a number in range is read as that number |
| Admin.DnsAdd | admin/StaticShieldAdmin.php:424-451 | nonce, capability (403), then `invalid_input` (400) for an empty type, name or content before any call; otherwise the added record, or `dns_add_failed` with the error's message |
| Admin.DnsAddRefusedOffline | admin/StaticShieldAdmin.php:439-441 | a refused or invalid request gets the same answer whatever the Worker would say |
| Admin.DnsAddSent | admin/StaticShieldAdmin.php:443-450 | an accepted record is posted to `dns/add` with the record as body, and the handler succeeds exactly on a 2xx reply |
| Admin.DnsDelete | admin/StaticShieldAdmin.php:459-480 | nonce, capability (403), then `invalid_input` (400) for an empty id before any call; otherwise `deleted` with the id, or `dns_delete_failed` |
| Admin.DnsDeleteSent | admin/StaticShieldAdmin.php:472-479 | an accepted id is sent as `DELETE dns/delete/{id}`, and the handler succeeds, echoing the id, exactly on a 2xx reply |
| Php.IntVal | admin/StaticShieldAdmin.php:435 | `intval` of a string stays within PHP's 64-bit range |
| Php.IntValNoDigits | admin/StaticShieldAdmin.php:435 | a string without a decimal digit, the empty string included, reads as 0 |
| Php.IntValOfNat | admin/StaticShieldAdmin.php:435 | `intval` reads back the decimal string of any in-range number |
| Php.IntValOfNegated | admin/StaticShieldAdmin.php:435 | with a leading '-', it reads back the negated number |
| Php.TrailingSlashIt | includes/StaticShieldWorkerClient.php:62 | the result ends in one '/', preceded by a prefix of the input that does not end in '/' or '\' |
| Php.RTrim | includes/StaticShieldWorkerHandler.php:53 | a prefix of the input, not ending in a trimmed character, with only trimmed characters dropped |
| Php.LTrim | includes/StaticShieldWorkerClient.php:62 | a suffix of the input, not starting with a trimmed character, with only trimmed characters dropped |
| Php.NatToStringValue | includes/StaticShieldExporter.php:132 | a post ID's decimal digits read back to the ID |
| AdminJs.EscapeHtml | admin/js/static-shield-admin.js:238-245 | the five global replacements in the source's order; what they compute is stated by `EscapeEncodes`, `EscapeSafe` and `UnescapeEscape` |
| AdminJs.EscapeEncodes | admin/js/static-shield-admin.js:238-245 | `escapeHtml` writes each of `& < > " '` as its entity, once, and leaves every other character alone |
| AdminJs.EscapeStep | admin/js/static-shield-admin.js:240-244 | each replacement encodes its character without touching entities already written, which needs '&' first |
| AdminJs.EscapeSafe | admin/js/static-shield-admin.js:239-244 | the output holds no `< > " '`, and every '&' in it starts one of the five entities |
| AdminJs.EscapePlain | admin/js/static-shield-admin.js:238-245 | text without special characters comes out unchanged |
| AdminJs.UnescapeEscape | admin/js/static-shield-admin.js:238-245 | replacing the entities back, `&amp;` last, recovers the input |
| AdminJs.Entity | admin/js/static-shield-admin.js:240-244 | each entity starts with '&', ends with ';' and holds no other special character |
| AdminJs.LogClass | admin/js/static-shield-admin.js:67-69 | `log-error` exactly for lines containing "[error]"; otherwise `log-warning` exactly for "[warning]"; otherwise `log-info` |
| AdminJs.ErrorLinesShown | admin/js/static-shield-admin.js:67-69 | a line logged with type "error" is shown as an error |
| AdminJs.TaggedErrorLinesShown | admin/js/static-shield-admin.js:68 | the deployer's "[error] ..." messages, logged as "info", are shown as errors too |
| AdminJs.InitialTab | admin/js/static-shield-admin.js:38-52 | the hash's tab when it exists, else the first active tab, else `activity-log`; always an existing tab or `activity-log` |
| AdminJs.StripHash | admin/js/static-shield-admin.js:39 | one leading '#' is removed |
| AdminJs.FirstActive | admin/js/static-shield-admin.js:45 | the first tab with the `active` class, or none exactly when no tab is active |
| AdminJs.OpenTab | admin/js/static-shield-admin.js:9-13 | exactly the tabs with the target are active, and a pane is shown exactly when its id is `tab-` + target |
| AdminJs.OpenedTabRestored | admin/js/static-shield-admin.js:38-52 | after opening an existing tab, restoring without a hash finds that tab |
| AdminJs.OpenTabIdempotent | admin/js/static-shield-admin.js:9-13 | opening the same tab twice is opening it once |
| Uninstall.Run | uninstall.php:19-27 | only `static_shield_version` leaves the option store; the builds folder is removed when it is a directory, and the filesystem is untouched otherwise |
| Uninstall.RemoveDirectory | uninstall.php:36-47 | the recursive delete shared with `rrmdir`: failures are silent and leave exactly the protected entries and the directories holding them; everything else inside goes and the rest keeps its content |
| Uninstall.CleanRemoval | uninstall.php:38-46 | when nothing inside is protected, the whole tree is gone and everything outside is untouched |
| Uninstall.BuildsFolder | uninstall.php:23 | `trailingslashit` of the uploads directory followed by `static-shield-builds`; `BuildsFolderIsExportersDir` relates it to the exporter |
| Uninstall.BuildsFolderIsExportersDir | uninstall.php:23 | for an uploads path without a trailing slash, the folder removed is the exporter's builds directory |
| Host.Host.DeleteOption | uninstall.php:19 | exactly the named option is removed |

## Left out

- HTTP, the AWS SDK, `ZipArchive`, `json_encode`/`json_decode`, `sanitize_text_field`, `wp_kses_post`, `esc_url` and `is_readable` are foreign code. They are parameters of the model, and the archive is modelled by its entry manifest, not its bytes.
- `microtime`, `round` and `size_format` are not modelled. Durations, timestamps and sizes are opaque strings given by the clock and the `Site` parameter.
- Symbolic links and `realpath` are not modelled. The filesystem is a tree of canonical paths, and `getRealPath` is the walked path itself.
- `readdir` and `scandir` order is left open. The loops take children in any order, and the contracts hold for every order.
- Exporter.Exporter.CopyDir: requires an empty destination that does not overlap the part of the source it copies. With an overlap the source loops into its own copy, which the model does not follow.
- Exporter.Exporter.RunExport: requires every entry inside the build directory to be deletable, and the `wp-includes` directories to lie apart from the build. The contracts state the outcome only under these conditions.
- Entry points and hook wiring are not modelled: plugin bootstrap, hook registration, settings registration, the other AJAX handlers, and `addPluginActionLinks`.
- Admin.Admin.HandleManualExport: `wp_safe_redirect` and `exit` become the returned `Redirect`. The 60-second expiry of the notice transient is not modelled.
- Admin.Admin.HandleManualExport: a failed nonce is `Died`, with nothing queued, because `check_admin_referer` calls `wp_nonce_ays` and dies rather than returning false. The "Invalid nonce" notice and redirect at admin/StaticShieldAdmin.php:231-235 are therefore never reached and are not modelled.
- Host.Host.Put: only canonical paths are written. A path with `.` or `..` segments or `//` is refused and nothing is written, while PHP's `file_put_contents` lets the operating system resolve it.
- Exporter.Exporter.ExportUrl: export file names are not sanitised, so a slug such as `../x` names a file outside the build directory, which PHP writes there. The model writes nothing for such a name. It still logs the "Exported" line, as the source does whatever `file_put_contents` returns. The same holds for `Exporter.Exported` and `Exporter.ExportAllKeeps`, whose frame contracts rely on it.
- AdminJs.EscapeHtml: takes a string. The source's `String(str)` coercion of numbers such as a record's `ttl`, and its `''` default for `undefined`, are not modelled.
- Admin.DnsAdd: PHP's `intval` also reads exponent forms such as "1e3"; `Php.IntVal` reads only the leading sign and digits.
- Admin.DnsList: `check_ajax_referer` ending the request is the single `NonceRejected` answer; the response body it prints is not modelled.
- Admin.NoticeClass: `esc_attr` on the class is the identity, as the three class names hold no character it escapes.
- AdminJs.OpenTab: updates the tabs and panes as values. The history and hash update, and the log and DNS loading it starts, are not modelled.
- AdminJs.InitialTab: the CSS selector built from the hash is taken to match the tab with that target exactly, quoting included.
- Deployer.Attempt: only `AwsException` is caught, as in the source. Any other exception thrown by the SDK is outside the model.
- Concurrency is not modelled, such as a manual export and a post-update export running on the same build directory at the same time.
