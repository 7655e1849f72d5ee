/** The torrent client adapter (src/api/transmission.rs): the RPC exchange
    with its session-id handshake, the status poll, the torrent summary and
    the request bodies of the torrent operations. The network is an
    `RpcServer` object that logs every request it receives and answers as
    its behaviour function says. */
module Transmission {
  import opened Base
  import opened Http

  /** `basic_auth(user, Some(pass))` */
  datatype Credentials = Credentials(user: string, pass: string)

  /** One POST: the endpoint, the optional basic credentials, the optional
      `X-Transmission-Session-Id` header and the JSON body. */
  datatype Request = Request(endpoint: string, auth: Option<Credentials>, sessionId: Option<string>, body: Json)

  /** `format!("{}/transmission/rpc", url)` */
  function Endpoint(url: string): (r: string)
    ensures |r| == |url| + 17 && r[..|url|] == url && r[|url|..] == "/transmission/rpc"
  {
    url + "/transmission/rpc"
  }

  /** A POST to the RPC endpoint, with credentials only when a user name is set. */
  function Post(url: string, user: string, pass: string, sessionId: Option<string>, body: Json): (r: Request)
    ensures r.endpoint == Endpoint(url) && r.sessionId == sessionId && r.body == body
    ensures r.auth.Some? <==> user != ""
    ensures r.auth.Some? ==> r.auth.value == Credentials(user, pass)
  {
    Request(Endpoint(url), if user != "" then Some(Credentials(user, pass)) else None, sessionId, body)
  }

  /** The server side of the connection. `respond` is its behaviour: the
      answer to a request given every request received before it. */
  class RpcServer {
    const respond: (seq<Request>, Request) -> Outcome<Json>
    var sent: seq<Request>

    constructor (respond: (seq<Request>, Request) -> Outcome<Json>)
      ensures this.respond == respond && sent == []
    {
      this.respond := respond;
      sent := [];
    }

    /** Sends one request and returns what the server answers. */
    method Send(req: Request) returns (o: Outcome<Json>)
      modifies this
      ensures sent == old(sent) + [req]
      ensures o == respond(old(sent), req)
    {
      o := respond(sent, req);
      sent := sent + [req];
    }
  }

  // ---------------------------------------------------------------------
  // rpc_request

  const SessionHeader: string := "x-transmission-session-id"
  const Conflict: nat := 409

  /** `HeaderValue::to_str` succeeds only on visible ASCII (and tab). */
  predicate VisibleAscii(s: string) {
    forall k :: 0 <= k < |s| ==> s[k] == '\t' || (' ' <= s[k] <= '~')
  }

  /** The session id a 409 answer hands out: the header's value, or the
      empty string when the header is absent or not readable as text. */
  function SessionIdOf(headers: map<string, string>): (r: string)
    ensures r != "" ==> SessionHeader in headers && r == headers[SessionHeader]
    ensures SessionHeader in headers && VisibleAscii(headers[SessionHeader]) ==> r == headers[SessionHeader]
    ensures SessionHeader !in headers || !VisibleAscii(headers[SessionHeader]) ==> r == ""
  {
    if SessionHeader in headers && VisibleAscii(headers[SessionHeader]) then headers[SessionHeader] else ""
  }

  /** `resp.json().await?` on a body already seen as JSON. */
  function JsonOf(b: Body<Json>): Result<Json> {
    match b
    case Decoded(v) => Ok(v)
    case Undecodable(reason) => Err(reason)
  }

  /** What `rpc_request` returns and the requests it sends, when the server
      has already received `history`. */
  function Exchange(respond: (seq<Request>, Request) -> Outcome<Json>, history: seq<Request>,
                    url: string, user: string, pass: string, body: Json): (Result<Json>, seq<Request>)
  {
    var first := Post(url, user, pass, None, body);
    match respond(history, first)
    case TransportErr(e) => (Err(e), [first])
    case Resp(status, headers, b) =>
      if status == Conflict then
        var second := Post(url, user, pass, Some(SessionIdOf(headers)), body);
        var answer := match respond(history + [first], second)
          case TransportErr(e) => Err(e)
          case Resp(_, _, b2) => JsonOf(b2);
        (answer, [first, second])
      else if IsSuccess(status) then (JsonOf(b), [first])
      else (Err("Transmission returned HTTP " + StatusText(status)), [first])
  }

  /** Every request of an exchange goes to the RPC endpoint with the same
      body, and carries the credentials exactly when a user name is set;
      there are one or two requests, the first without a session id. */
  lemma ExchangeRequests(respond: (seq<Request>, Request) -> Outcome<Json>, history: seq<Request>,
                         url: string, user: string, pass: string, body: Json)
    ensures var reqs := Exchange(respond, history, url, user, pass, body).1;
      1 <= |reqs| <= 2 && reqs[0].sessionId.None?
      && forall k :: 0 <= k < |reqs| ==>
           reqs[k].endpoint == Endpoint(url) && reqs[k].body == body
           && (reqs[k].auth.Some? <==> user != "")
  {
  }

  /** A 409 first answer causes exactly one retry, carrying the session id
      that answer handed out, and the retry's body is the result whatever
      the retry's status. */
  lemma HandshakeRetry(respond: (seq<Request>, Request) -> Outcome<Json>, history: seq<Request>,
                       url: string, user: string, pass: string, body: Json)
    requires respond(history, Post(url, user, pass, None, body)).Resp?
    requires respond(history, Post(url, user, pass, None, body)).status == Conflict
    ensures var (r, reqs) := Exchange(respond, history, url, user, pass, body);
      var headers := respond(history, Post(url, user, pass, None, body)).headers;
      |reqs| == 2 && reqs[1] == Post(url, user, pass, Some(SessionIdOf(headers)), body)
      && (respond(history + [reqs[0]], reqs[1]).Resp? ==> r == JsonOf(respond(history + [reqs[0]], reqs[1]).body))
  {
  }

  /** Without a 409 there is exactly one request: a success answer gives
      its body, any other status an error naming the status. */
  lemma NoHandshake(respond: (seq<Request>, Request) -> Outcome<Json>, history: seq<Request>,
                    url: string, user: string, pass: string, body: Json)
    requires !(respond(history, Post(url, user, pass, None, body)).Resp?
               && respond(history, Post(url, user, pass, None, body)).status == Conflict)
    ensures var (r, reqs) := Exchange(respond, history, url, user, pass, body);
      var o := respond(history, Post(url, user, pass, None, body));
      |reqs| == 1
      && (o.Resp? && IsSuccess(o.status) ==> r == JsonOf(o.body))
      && (o.Resp? && !IsSuccess(o.status) ==> r == Err("Transmission returned HTTP " + StatusText(o.status)))
      && (o.TransportErr? ==> r == Err(o.error))
  {
  }

  /** `rpc_request`: POST the body; on a 409 repeat it once with the session
      id from the answer's header. */
  method RpcRequest(server: RpcServer, url: string, user: string, pass: string, body: Json) returns (r: Result<Json>)
    modifies server
    ensures var (result, reqs) := Exchange(server.respond, old(server.sent), url, user, pass, body);
      r == result && server.sent == old(server.sent) + reqs
  {
    var resp := server.Send(Post(url, user, pass, None, body));
    if resp.TransportErr? {
      r := Err(resp.error);
    } else if resp.status == Conflict {
      var sessionId := SessionIdOf(resp.headers);
      var resp2 := server.Send(Post(url, user, pass, Some(sessionId), body));
      if resp2.TransportErr? {
        r := Err(resp2.error);
      } else {
        r := JsonOf(resp2.body);
      }
    } else if IsSuccess(resp.status) {
      r := JsonOf(resp.body);
    } else {
      r := Err("Transmission returned HTTP " + StatusText(resp.status));
    }
  }

  // ---------------------------------------------------------------------
  // Request bodies

  function Obj1(k: string, v: Json): Json { JObj(map[k := v]) }

  function Obj2(k1: string, v1: Json, k2: string, v2: Json): Json { JObj(map[k1 := v1, k2 := v2]) }

  function Strings(names: seq<string>): (r: seq<Json>)
    ensures |r| == |names| && forall k :: 0 <= k < |r| ==> r[k] == JStr(names[k])
  {
    if names == [] then [] else [JStr(names[0])] + Strings(names[1..])
  }

  /** The RPC method a body asks for. */
  function MethodOf(body: Json): Option<string> {
    AndThenStr(Get(body, "method"))
  }

  /** The `arguments` member of a body. */
  function ArgumentsOf(body: Json): Option<Json> {
    Get(body, "arguments")
  }

  /** `{"method": "session-get"}` (the status poll and `get_config`). */
  function SessionGetBody(): (b: Json)
    ensures MethodOf(b) == Some("session-get") && ArgumentsOf(b).None?
  {
    Obj1("method", JStr("session-get"))
  }

  /** `{"method": "torrent-get", "arguments": {"fields": fields}}` */
  function TorrentGetBody(fields: seq<string>): (b: Json)
    ensures MethodOf(b) == Some("torrent-get")
    ensures ArgumentsOf(b) == Some(Obj1("fields", JArr(Strings(fields))))
  {
    Obj2("method", JStr("torrent-get"), "arguments", Obj1("fields", JArr(Strings(fields))))
  }

  /** The fields the status summary asks for. */
  const SummaryFields: seq<string> := ["id", "name", "status", "percentDone", "rateDownload"]

  /** `{"method": "session-set", "arguments": config}` (`update_config`). */
  function SessionSetBody(config: Json): (b: Json)
    ensures MethodOf(b) == Some("session-set") && ArgumentsOf(b) == Some(config)
  {
    Obj2("method", JStr("session-set"), "arguments", config)
  }

  /** `{"method": "torrent-add", "arguments": {"filename": filename}}` */
  function AddTorrentBody(filename: string): (b: Json)
    ensures MethodOf(b) == Some("torrent-add")
    ensures ArgumentsOf(b).Some? && Get(ArgumentsOf(b).value, "filename") == Some(JStr(filename))
  {
    Obj2("method", JStr("torrent-add"), "arguments", Obj1("filename", JStr(filename)))
  }

  /** The torrent operations that act on one torrent by id. */
  datatype TorrentAction = Start | Stop | Remove(deleteData: bool)

  function ActionName(a: TorrentAction): string {
    match a
    case Start => "torrent-start"
    case Stop => "torrent-stop"
    case Remove(_) => "torrent-remove"
  }

  /** `start_torrent`, `stop_torrent` and `remove_torrent` bodies: the
      method, the single id in `ids`, and for removal the
      `delete-local-data` flag. */
  function ActionBody(a: TorrentAction, id: int): (b: Json)
    ensures MethodOf(b) == Some(ActionName(a))
    ensures ArgumentsOf(b).Some?
    ensures Get(ArgumentsOf(b).value, "ids") == Some(JArr([JNum(id)]))
    ensures Get(ArgumentsOf(b).value, "delete-local-data").Some? <==> a.Remove?
    ensures a.Remove? ==> Get(ArgumentsOf(b).value, "delete-local-data") == Some(JBool(a.deleteData))
  {
    var args := match a
      case Remove(d) => Obj2("ids", JArr([JNum(id)]), "delete-local-data", JBool(d))
      case _ => Obj1("ids", JArr([JNum(id)]));
    Obj2("method", JStr(ActionName(a)), "arguments", args)
  }

  // ---------------------------------------------------------------------
  // fetch_extras

  /** A torrent as the summary reads it (`TorrentInfo`); `percent` is the
      already rounded percentage. */
  datatype Torrent = Torrent(status: int, name: string, percent: int)

  /** The typed view of a `torrent-get` answer (`TorrentGetResponse`). */
  datatype TorrentGetResponse = TorrentGetResponse(arguments: Option<seq<Torrent>>)

  /** Status 4 means downloading. */
  const DownloadingStatus: int := 4
  const MaxNames: nat := 5

  /** `.filter(|t| t.status == 4)` */
  function Downloading(ts: seq<Torrent>): (r: seq<Torrent>)
    ensures |r| <= |ts|
    ensures forall t :: t in r <==> t in ts && t.status == DownloadingStatus
  {
    if ts == [] then []
    else (if ts[0].status == DownloadingStatus then [ts[0]] else []) + Downloading(ts[1..])
  }

  /** Filtering distributes over concatenation, so the downloading torrents
      keep their relative order. */
  lemma {:induction false} DownloadingAppend(a: seq<Torrent>, b: seq<Torrent>)
    ensures Downloading(a + b) == Downloading(a) + Downloading(b)
  {
    if a == [] {
      assert a + b == b;
    } else {
      assert (a + b)[1..] == a[1..] + b;
      DownloadingAppend(a[1..], b);
    }
  }

  /** `format!("{} ({}%)", t.name, pct)` */
  function Label(t: Torrent): (r: string)
    ensures |r| > |t.name| && r[..|t.name|] == t.name
  {
    t.name + " (" + IntToString(t.percent) + "%)"
  }

  function Labels(ts: seq<Torrent>): (r: seq<string>)
    ensures |r| == |ts| && forall k :: 0 <= k < |r| ==> r[k] == Label(ts[k])
  {
    if ts == [] then []
    else
      var rest := Labels(ts[1..]);
      [Label(ts[0])] + rest
  }

  /** The summary of a torrent list: how many torrents, how many are
      downloading, and labels for the first five of those. */
  function Summary(ts: seq<Torrent>): (e: Extras)
    ensures e.TorrentExtras?
  {
    var dl := Downloading(ts);
    TorrentExtras(|ts|, |dl|, Labels(Take(dl, MaxNames)))
  }

  /** The summary counts every torrent and the downloading ones, and names
      the first min(5, downloading) downloading torrents in list order. */
  lemma SummarySpec(ts: seq<Torrent>)
    ensures var e := Summary(ts);
      e.totalTorrents == |ts| && e.downloading <= e.totalTorrents
      && e.downloading == |Downloading(ts)|
      && |e.downloadingNames| == Min(MaxNames, e.downloading)
      && forall k :: 0 <= k < |e.downloadingNames| ==>
           e.downloadingNames[k] == Label(Downloading(ts)[k]) && Downloading(ts)[k] in ts
           && Downloading(ts)[k].status == DownloadingStatus
  {
    var dl := Downloading(ts);
    forall k | 0 <= k < Min(MaxNames, |dl|) ensures dl[k] in ts && dl[k].status == DownloadingStatus {
      assert dl[k] in dl;
    }
  }

  /** A list with no downloading torrent names none. */
  lemma SummaryIdle(ts: seq<Torrent>)
    requires forall k :: 0 <= k < |ts| ==> ts[k].status != DownloadingStatus
    ensures Summary(ts).downloading == 0 && Summary(ts).downloadingNames == []
  {
  }

  /** What `fetch_extras` makes of the RPC's result: the summary when the
      answer has the expected shape with `arguments`, else `{}`. `decode`
      stands for `serde_json::from_value::<TorrentGetResponse>`. */
  function ExtrasOf(reply: Result<Json>, decode: Json -> Option<TorrentGetResponse>): (e: Extras)
    ensures e.TorrentExtras? || e == NoTorrentInfo
    ensures e.TorrentExtras? <==>
      reply.Ok? && decode(reply.value).Some? && decode(reply.value).value.arguments.Some?
    ensures e.TorrentExtras? ==> e == Summary(decode(reply.value).value.arguments.value)
  {
    if reply.Err? then NoTorrentInfo
    else match decode(reply.value)
      case None => NoTorrentInfo
      case Some(parsed) =>
        match parsed.arguments
        case None => NoTorrentInfo
        case Some(ts) => Summary(ts)
  }

  /** `fetch_extras`: one `torrent-get` exchange, summarised. */
  method FetchExtras(server: RpcServer, url: string, user: string, pass: string,
                     decode: Json -> Option<TorrentGetResponse>) returns (e: Extras)
    modifies server
    ensures var (reply, reqs) := Exchange(server.respond, old(server.sent), url, user, pass, TorrentGetBody(SummaryFields));
      e == ExtrasOf(reply, decode) && server.sent == old(server.sent) + reqs
  {
    var reply := RpcRequest(server, url, user, pass, TorrentGetBody(SummaryFields));
    e := ExtrasOf(reply, decode);
  }

  // ---------------------------------------------------------------------
  // get_status

  /** The status record for the poll's answer `first`; `extras` is what
      the summary produced when it was fetched. */
  function StatusOf(first: Outcome<Json>, extras: Extras): (st: ServiceStatus)
    ensures st.name == "Transmission" && st.version.None? && WellFormed(st)
    ensures st.active <==> Reachable(first)
    ensures st.active ==> st.message == "Running" && st.extras == Some(extras)
    ensures first.TransportErr? ==> st.message == first.error
    ensures first.Resp? && !st.active ==> st.message == "HTTP " + StatusText(first.status)
  {
    match first
    case TransportErr(e) => ServiceStatus("Transmission", false, e, None, None)
    case Resp(status, _, _) =>
      if IsSuccess(status) || status == Conflict then ServiceStatus("Transmission", true, "Running", None, Some(extras))
      else ServiceStatus("Transmission", false, "HTTP " + StatusText(status), None, None)
  }

  /** The poll counts a 409 (a session id is wanted) as a running client. */
  predicate Reachable(first: Outcome<Json>) {
    first.Resp? && (IsSuccess(first.status) || first.status == Conflict)
  }

  /** `get_status`: one `session-get` without a session id; a running
      client is then summarised through a full exchange. */
  method GetStatus(server: RpcServer, url: string, user: string, pass: string,
                   decode: Json -> Option<TorrentGetResponse>) returns (st: ServiceStatus)
    modifies server
    ensures var poll := Post(url, user, pass, None, SessionGetBody());
      var first := server.respond(old(server.sent), poll);
      var (reply, reqs) := Exchange(server.respond, old(server.sent) + [poll], url, user, pass, TorrentGetBody(SummaryFields));
      (Reachable(first) ==> st == StatusOf(first, ExtrasOf(reply, decode)) && server.sent == old(server.sent) + [poll] + reqs)
      && (!Reachable(first) ==> st == StatusOf(first, NoTorrentInfo) && server.sent == old(server.sent) + [poll])
  {
    var first := server.Send(Post(url, user, pass, None, SessionGetBody()));
    if Reachable(first) {
      var extras := FetchExtras(server, url, user, pass, decode);
      st := StatusOf(first, extras);
    } else {
      st := StatusOf(first, NoTorrentInfo);
    }
  }

  // ---------------------------------------------------------------------
  // get_config and update_config: a single request, no handshake.

  /** `get_config`: the answer's body, whatever its status. */
  method GetConfig(server: RpcServer, url: string, user: string, pass: string) returns (r: Result<Json>)
    modifies server
    ensures var req := Post(url, user, pass, None, SessionGetBody());
      server.sent == old(server.sent) + [req]
      && match server.respond(old(server.sent), req)
         case TransportErr(e) => r == Err(e)
         case Resp(_, _, b) => r == JsonOf(b)
  {
    var resp := server.Send(Post(url, user, pass, None, SessionGetBody()));
    if resp.TransportErr? {
      r := Err(resp.error);
    } else {
      r := JsonOf(resp.body);
    }
  }

  /** `update_config`: `error_for_status` fails on a 4xx or 5xx answer;
      every other answer succeeds. */
  method UpdateConfig(server: RpcServer, url: string, user: string, pass: string, config: Json) returns (r: Result<()>)
    modifies server
    ensures var req := Post(url, user, pass, None, SessionSetBody(config));
      var o := server.respond(old(server.sent), req);
      server.sent == old(server.sent) + [req]
      && (r.Ok? <==> o.Resp? && !IsErrorStatus(o.status))
      && (o.TransportErr? ==> r == Err(o.error))
  {
    var resp := server.Send(Post(url, user, pass, None, SessionSetBody(config)));
    if resp.TransportErr? {
      r := Err(resp.error);
    } else if IsErrorStatus(resp.status) {
      r := Err("HTTP " + StatusText(resp.status));
    } else {
      r := Ok(());
    }
  }
}
