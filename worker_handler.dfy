/** The front-end redirect: with Cloudflare Worker serving switched on, every
    front-end request is sent to the Worker, keeping its request URI. */
module WorkerHandler {
  import opened Php

  /** A `wp_redirect` to `location` with `status`. */
  datatype Redirect = Redirect(location: string, status: int)

  /** The Worker URL as `serveStatic` reads it: trimmed, `""` when missing. */
  function WorkerUrl(worker: OptVal): string {
    Trim(AsString(worker))
  }

  /** `serveStatic()`, given the `static_shield_use_cf` and
      `static_shield_cf_worker` options and `$_SERVER['REQUEST_URI']`. `None`
      lets WordPress render the page itself. */
  function ServeStatic(useCf: OptVal, worker: OptVal, requestUri: Option<string>): (r: Option<Redirect>)
    ensures r.Some? <==> Truthy(useCf) && TruthyString(WorkerUrl(worker))
    ensures r.Some? ==>
              var base := RTrim(WorkerUrl(worker), {'/'});
              var uri := if requestUri.Some? then requestUri.value else "/";
              && r.value.status == 302
              && r.value.location == base + uri
              && base <= WorkerUrl(worker)
              && (base == [] || base[|base| - 1] != '/')
  {
    if !Truthy(useCf) then None
    else
      var workerUrl := WorkerUrl(worker);
      if !TruthyString(workerUrl) then None
      else
        var uri := if requestUri.Some? then requestUri.value else "/";
        Some(Redirect(RTrim(workerUrl, {'/'}) + uri, 302))
  }

  /** A trailing slash on an already trimmed Worker URL does not change
      where requests are sent. */
  lemma TrailingSlashIgnored(useCf: OptVal, w: string, requestUri: Option<string>)
    requires Trim(w) == w && TruthyString(w)
    ensures ServeStatic(useCf, Str(w + "/"), requestUri) == ServeStatic(useCf, Str(w), requestUri)
  {
    LTrimKeeps(w);
    SlashTrimmed(w);
    SlashDropped(w);
    assert |w + "/"| >= 2;
  }

  lemma SlashTrimmed(w: string)
    requires w != [] && w[0] !in Whitespace
    ensures WorkerUrl(Str(w + "/")) == w + "/"
  {
    var w' := w + "/";
    assert w'[0] == w[0];
    assert LTrim(w', Whitespace) == w';
    assert w'[|w'| - 1] !in Whitespace;
  }

  lemma SlashDropped(w: string)
    ensures RTrim(w + "/", {'/'}) == RTrim(w, {'/'})
  {
    var w' := w + "/";
    assert w'[..|w'| - 1] == w;
  }

  /** A string that `ltrim` leaves whole does not start with a trimmed character. */
  lemma LTrimKeeps(w: string)
    requires w != [] && RTrim(LTrim(w, Whitespace), Whitespace) == w
    ensures w[0] !in Whitespace
  {
  }
}
