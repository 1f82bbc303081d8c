/** The client of the Static Shield Cloudflare Worker's DNS API: builds an
    authenticated JSON request to the configured Worker URL, sends it, and
    classifies the answer by its status code. */
module WorkerClient {
  import opened Php

  /** A decoded JSON value, as PHP's `json_decode(..., true)` produces it. */
  datatype Json =
    | JNull
    | JBool(b: bool)
    | JInt(i: int)
    | JStr(s: string)
    | JList(items: seq<Json>)
    | JObject(fields: seq<(string, Json)>)

  /** PHP truthiness of a decoded value; an empty array is falsy. */
  predicate JsonTruthy(j: Json) {
    match j
    case JNull => false
    case JBool(b) => b
    case JInt(i) => i != 0
    case JStr(s) => TruthyString(s)
    case JList(items) => items != []
    case JObject(fields) => fields != []
  }

  /** A `WP_Error`: its code, message and data. */
  datatype WpError = WpError(code: string, message: string, data: Json)

  /** The argument list of `wp_remote_request`. `body` is the value
      `wp_json_encode` serialises. */
  datatype HttpRequest = HttpRequest(url: string, verb: string, headers: seq<(string, string)>,
                                     timeout: nat, body: Option<Json>)

  /** What `wp_remote_request` returns: a transport `WP_Error`, or a response. */
  datatype HttpReply = TransportFailed(error: WpError) | Reply(status: int, body: string)

  /** The network and the JSON decoder the client relies on. */
  datatype Net = Net(send: HttpRequest -> HttpReply, decode: string -> Json)

  /** What `request` returns: the decoded data, or a `WP_Error`. */
  datatype WorkerResult = Data(data: Json) | Error(error: WpError)

  /** The client's settings, read from the option store when it is created. */
  datatype Client = Client(workerUrl: OptVal, authToken: OptVal)

  const MissingUrl: WpError := WpError("missing_worker_url", "Worker URL not configured", JNull)

  /** The headers of every request. */
  function Headers(c: Client): seq<(string, string)> {
    [("Content-Type", "application/json"), ("Authorization", "Bearer " + AsString(c.authToken))]
  }

  /** The URL `request` calls: the Worker URL with exactly one trailing
      slash, then the endpoint without its leading slashes. */
  function RequestUrl(workerUrl: string, endpoint: string): (url: string)
    ensures var base := RTrim(workerUrl, {'/', '\\'});
            var path := LTrim(endpoint, {'/'});
            && url == base + "/" + path
            && (base == [] || base[|base| - 1] !in {'/', '\\'})
            && (path == [] || path[0] != '/')
  {
    TrailingSlashIt(workerUrl) + LTrim(endpoint, {'/'})
  }

  /** The request `request($endpoint, $method, $body)` sends, or `None` when
      the Worker URL is empty and nothing is sent. */
  function Outgoing(c: Client, endpoint: string, verb: string, body: Json): (r: Option<HttpRequest>)
    ensures r.None? <==> !Truthy(c.workerUrl)
    ensures r.Some? ==> && r.value.verb == verb && r.value.timeout == 20
                        && r.value.headers == Headers(c)
                        && r.value.url == RequestUrl(AsString(c.workerUrl), endpoint)
                        && (r.value.body.Some? <==> JsonTruthy(body))
                        && (r.value.body.Some? ==> r.value.body.value == body)
  {
    if !Truthy(c.workerUrl) then None
    else Some(HttpRequest(RequestUrl(c.workerUrl.s, endpoint), verb, Headers(c), 20,
                          if JsonTruthy(body) then Some(body) else None))
  }

  /** How `request` turns the reply into its result. */
  function Classify(net: Net, reply: HttpReply): (r: WorkerResult)
    ensures reply.TransportFailed? ==> r == Error(reply.error)
    ensures reply.Reply? && 200 <= reply.status < 300 ==> r == Data(net.decode(reply.body))
    ensures reply.Reply? && !(200 <= reply.status < 300) ==>
              r == Error(WpError("worker_error", "Worker returned error", net.decode(reply.body)))
  {
    match reply
    case TransportFailed(e) => Error(e)
    case Reply(status, body) =>
      var data := net.decode(body);
      if 200 <= status < 300 then Data(data)
      else Error(WpError("worker_error", "Worker returned error", data))
  }

  /** `request($endpoint, $method, $body)`: without a Worker URL it fails
      with `missing_worker_url` whatever the network would answer; otherwise
      the result is the classification of the reply to the request built
      from the settings, a success exactly for a 2xx status. */
  function Request(c: Client, net: Net, endpoint: string, verb: string, body: Json): (r: WorkerResult)
    ensures !Truthy(c.workerUrl) ==> r == Error(MissingUrl)
    ensures Truthy(c.workerUrl) ==>
              var reply := net.send(Outgoing(c, endpoint, verb, body).value);
              && r == Classify(net, reply)
              && (r.Data? <==> reply.Reply? && 200 <= reply.status < 300)
  {
    match Outgoing(c, endpoint, verb, body)
    case None => Error(MissingUrl)
    case Some(req) => Classify(net, net.send(req))
  }

  /** `listDnsRecords()`: `GET dns/list` without a body. */
  function ListDnsRecords(c: Client, net: Net): (r: WorkerResult)
    ensures !Truthy(c.workerUrl) ==> r == Error(MissingUrl)
    ensures Truthy(c.workerUrl) ==>
              r == Classify(net, net.send(HttpRequest(TrailingSlashIt(c.workerUrl.s) + "dns/list", "GET", Headers(c), 20, None)))
  {
    LTrimNoSlash("dns/list");
    Request(c, net, "dns/list", "GET", JNull)
  }

  /** `addDnsRecord($record)`: `POST dns/add`, with the record as body when
      it is truthy. */
  function AddDnsRecord(c: Client, net: Net, record: Json): (r: WorkerResult)
    ensures !Truthy(c.workerUrl) ==> r == Error(MissingUrl)
    ensures Truthy(c.workerUrl) ==>
              r == Classify(net, net.send(HttpRequest(TrailingSlashIt(c.workerUrl.s) + "dns/add", "POST", Headers(c), 20,
                                                      if JsonTruthy(record) then Some(record) else None)))
  {
    LTrimNoSlash("dns/add");
    Request(c, net, "dns/add", "POST", record)
  }

  /** `deleteDnsRecord($id)`: `DELETE dns/delete/{id}` without a body, the
      id appended as given. */
  function DeleteDnsRecord(c: Client, net: Net, id: string): (r: WorkerResult)
    ensures !Truthy(c.workerUrl) ==> r == Error(MissingUrl)
    ensures Truthy(c.workerUrl) ==>
              r == Classify(net, net.send(HttpRequest(TrailingSlashIt(c.workerUrl.s) + "dns/delete/" + id, "DELETE",
                                                      Headers(c), 20, None)))
  {
    var e := "dns/delete/" + id;
    assert e[0] == 'd';
    LTrimNoSlash(e);
    assert TrailingSlashIt(AsString(c.workerUrl)) + e == TrailingSlashIt(AsString(c.workerUrl)) + "dns/delete/" + id;
    Request(c, net, e, "DELETE", JNull)
  }

  /** An endpoint that does not start with '/' is joined unchanged. */
  lemma LTrimNoSlash(endpoint: string)
    requires endpoint != [] && endpoint[0] != '/'
    ensures LTrim(endpoint, {'/'}) == endpoint
  {
  }
}
