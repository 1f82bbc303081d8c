/** The deployer: uploads the export's ZIP archive to a Cloudflare R2 bucket
    through the S3 API, after checking the archive and the R2 settings, and
    writes one line to the activity log per upload attempt. */
module Deployer {
  import opened Php
  import opened Host
  import opened Exporter

  /** The settings an `S3Client` is built from. */
  datatype ClientConfig = ClientConfig(region: string, endpoint: string, version: string,
                                       accessKey: string, secret: string)

  /** The arguments of `putObject`. */
  datatype PutRequest = PutRequest(bucket: string, key: string, sourceFile: string, contentType: string)

  /** One `putObject` call: the client it goes through and its arguments. */
  datatype PutCall = PutCall(client: ClientConfig, request: PutRequest)

  /** What `putObject` does: return a result, with or without an `ETag`, or
      throw an `AwsException` with its message. */
  datatype PutResult = Stored(etag: OptVal) | AwsError(message: string)

  /** The object store, as seen from the plugin: the answer to each call,
      given the file it uploads. */
  type R2 = (PutCall, Node) -> PutResult

  /** What one upload attempt does: its return value, the message it logs
      and the call it makes, if any. */
  datatype Upload = Upload(ok: bool, message: string, call: Option<PutCall>)

  const EndpointSuffix: string := ".r2.cloudflarestorage.com"

  /** The R2 endpoint for a Cloudflare account. */
  function Endpoint(accountId: string): (e: string)
    ensures |e| == 8 + |accountId| + |EndpointSuffix|
    ensures e[..8] == "https://" && e[8..8 + |accountId|] == accountId
    ensures e[8 + |accountId|..] == EndpointSuffix
  {
    "https://" + accountId + EndpointSuffix
  }

  /** Distinct accounts get distinct endpoints. */
  lemma EndpointInjective(a: string, b: string)
    requires Endpoint(a) == Endpoint(b)
    ensures a == b
  {
    assert |Endpoint(a)| == |Endpoint(b)|;
    assert a == Endpoint(a)[8..8 + |a|] == Endpoint(b)[8..8 + |b|] == b;
  }

  /** The R2 settings as read from the option store when the deployer is created. */
  datatype Settings = Settings(accessKeyId: OptVal, accessKeySecret: OptVal, accountId: OptVal, bucket: OptVal)

  /** Every setting is PHP-truthy. */
  predicate Configured(c: Settings) {
    Truthy(c.accessKeyId) && Truthy(c.accessKeySecret) && Truthy(c.accountId) && Truthy(c.bucket)
  }

  /** `createS3Client()`. */
  function S3Client(c: Settings): (cfg: ClientConfig)
    ensures cfg.region == "auto" && cfg.version == "latest"
    ensures cfg.endpoint == Endpoint(AsString(c.accountId))
  {
    ClientConfig("auto", Endpoint(AsString(c.accountId)), "latest", AsString(c.accessKeyId), AsString(c.accessKeySecret))
  }

  /** The messages `uploadToR2` logs. Each carries its own "[error]" or
      "[info]" tag, ahead of the type `log` adds. */
  const NotReadable: string := "[error] File not found or not readable: "
  const Unconfigured: string := "[error] Missing R2 credentials or bucket configuration"
  const Uploaded: string := "[info] Uploaded to R2 successfully. ETag: "
  const UploadFailed: string := "[error] Upload failed: "

  /** The text logged after a successful `putObject`: the `ETag`, or "N/A". */
  function UploadedMessage(etag: OptVal): (m: string)
    ensures etag.Str? ==> m == Uploaded + etag.s
    ensures etag.Missing? ==> m == Uploaded + "N/A"
  {
    Uploaded + (if etag.Str? then etag.s else "N/A")
  }

  /** What `uploadToR2($zipPath)` does: the archive check, then the settings
      check, then the upload. `readable` is `is_readable`. */
  function Attempt(fs: FileSystem, readable: string -> bool, r2: R2, c: Settings, zipPath: string): (u: Upload)
    ensures u.call.Some? <==> zipPath in fs && readable(zipPath) && Configured(c)
    ensures u.call.Some? ==> u.call.value == PutCall(S3Client(c),
                                PutRequest(AsString(c.bucket), Basename(zipPath), zipPath, "application/zip"))
  {
    if !(zipPath in fs && readable(zipPath)) then
      Upload(false, NotReadable + zipPath, None)
    else if !Configured(c) then
      Upload(false, Unconfigured, None)
    else
      var call := PutCall(S3Client(c), PutRequest(AsString(c.bucket), Basename(zipPath), zipPath, "application/zip"));
      match r2(call, fs[zipPath])
      case Stored(etag) => Upload(true, UploadedMessage(etag), Some(call))
      case AwsError(msg) => Upload(false, UploadFailed + msg, Some(call))
  }

  /** A missing or unreadable archive fails the upload whatever the settings are. */
  lemma MissingArchiveFails(fs: FileSystem, readable: string -> bool, r2: R2, c: Settings, zipPath: string)
    requires !(zipPath in fs && readable(zipPath))
    ensures Attempt(fs, readable, r2, c, zipPath) == Upload(false, NotReadable + zipPath, None)
  {
  }

  /** With the archive in place, a falsy setting fails the upload without any call. */
  lemma UnconfiguredFails(fs: FileSystem, readable: string -> bool, r2: R2, c: Settings, zipPath: string)
    requires zipPath in fs && readable(zipPath) && !Configured(c)
    ensures Attempt(fs, readable, r2, c, zipPath) == Upload(false, Unconfigured, None)
  {
  }

  /** Once both checks pass, the upload succeeds exactly when `putObject`
      returns, and the log names the `ETag`, or `N/A` without one; an
      `AwsException` becomes a failure with its message. */
  lemma UploadResult(fs: FileSystem, readable: string -> bool, r2: R2, c: Settings, zipPath: string)
    requires zipPath in fs && readable(zipPath) && Configured(c)
    ensures var u := Attempt(fs, readable, r2, c, zipPath);
            var res := r2(u.call.value, fs[zipPath]);
            && (u.ok <==> res.Stored?)
            && (res.Stored? ==> u.message == UploadedMessage(res.etag))
            && (res.AwsError? ==> u.message == UploadFailed + res.message)
  {
  }

  /** The exporter's archive is stored under the key "static-shield-builds.zip". */
  lemma ExportArchiveKey(uploads: string)
    ensures Basename(ZipPath(uploads)) == "static-shield-builds.zip"
  {
    assert ZipPath(uploads) == BuildsDir(uploads) + "/" + "static-shield-builds.zip";
    BasenameOfChild(BuildsDir(uploads), "static-shield-builds.zip");
  }

  /** The R2 settings in the option store. */
  function SettingsOf(h: Host): (c: Settings)
    reads h`options
    ensures Configured(c) <==>
              && "static_shield_cf_access_key_id" in h.options && TruthyString(h.options["static_shield_cf_access_key_id"])
              && "static_shield_cf_secret_access_key" in h.options && TruthyString(h.options["static_shield_cf_secret_access_key"])
              && "static_shield_cf_account_id" in h.options && TruthyString(h.options["static_shield_cf_account_id"])
              && "static_shield_cf_bucket" in h.options && TruthyString(h.options["static_shield_cf_bucket"])
  {
    Settings(h.GetOption("static_shield_cf_access_key_id"), h.GetOption("static_shield_cf_secret_access_key"),
             h.GetOption("static_shield_cf_account_id"), h.GetOption("static_shield_cf_bucket"))
  }

  class Deployer {
    const host: Host
    /** The R2 settings read by the constructor. */
    const settings: Settings

    constructor (host: Host)
      ensures this.host == host && settings == SettingsOf(host)
    {
      this.host := host;
      settings := SettingsOf(host);
    }

    /** `log($message)`: one line, of type "info", appended to the stored log. */
    method Log(message: string)
      modifies host`lastLog, host`tick
      ensures host.lastLog == old(host.lastLog) + [LogLine(host.clock(old(host.tick)), Message("info", message))]
      ensures host.tick == old(host.tick) + 1
    {
      var time := host.CurrentTime();
      var kind := "info";
      var entry := "[" + time + "] [" + kind + "] " + message;
      host.lastLog := host.lastLog + [entry];
    }

    /** `uploadToR2($zipPath)`, logging the outcome's message. */
    method UploadToR2(readable: string -> bool, r2: R2, zipPath: string) returns (ok: bool)
      modifies host`lastLog, host`tick
      ensures var u := Attempt(old(host.fs), readable, r2, settings, zipPath);
              && ok == u.ok
              && host.lastLog == old(host.lastLog) + [LogLine(host.clock(old(host.tick)), Message("info", u.message))]
      ensures host.tick == old(host.tick) + 1
    {
      ghost var u := Attempt(host.fs, readable, r2, settings, zipPath);
      if !(host.FileExists(zipPath) && readable(zipPath)) {
        Log(NotReadable + zipPath);
        return false;
      }
      if !Configured(settings) {
        Log(Unconfigured);
        return false;
      }
      var objectKey := Basename(zipPath);
      var client := S3Client(settings);
      var result := r2(PutCall(client, PutRequest(AsString(settings.bucket), objectKey, zipPath, "application/zip")),
                       host.fs[zipPath]);
      assert u.call == Some(PutCall(client, PutRequest(AsString(settings.bucket), objectKey, zipPath, "application/zip")));
      if result.AwsError? {
        assert u.message == UploadFailed + result.message;
        Log(UploadFailed + result.message);
        return false;
      }
      assert u.ok && u.message == UploadedMessage(result.etag);
      Log(UploadedMessage(result.etag));
      return true;
    }
  }
}
