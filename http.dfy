/** What an adapter sees of one HTTP exchange, the untyped JSON values some
    adapters navigate, and the uniform status record every adapter produces
    (`ServiceStatus`, src/api/mod.rs). */
module Http {
  import opened Base

  /** Decoding a response body (`resp.json()` into a typed view, or
      `resp.text()`) either yields the value or fails with a reason. */
  datatype Body<B> = Decoded(value: B) | Undecodable(reason: string)

  /** The outcome of sending one request: the transport failed, or a
      response arrived with a status, headers (names in lower case, as the
      client stores them) and a body seen through the caller's decoder. */
  datatype Outcome<B> =
    | TransportErr(error: string)
    | Resp(status: nat, headers: map<string, string>, body: Body<B>)

  /** `StatusCode::is_success`: the 2xx range. */
  predicate IsSuccess(status: nat) { 200 <= status <= 299 }

  /** What `Response::error_for_status` rejects: a client (4xx) or server
      (5xx) error. Every other status, 1xx and 3xx included, passes. */
  predicate IsErrorStatus(status: nat) { 400 <= status <= 599 }

  /** `format!("{}", status)`: the numeric code (the reason phrase that the
      client appends is not modelled). */
  function StatusText(status: nat): (r: string)
    ensures ParseInt(r) == Some(status as int)
  {
    IntToStringRoundTrip(status);
    IntToString(status)
  }

  /** The four terminal paths of a status poll. */
  datatype Path = TransportFailed | HttpFailed | ParseFailed | Parsed

  function PathOf<B>(o: Outcome<B>): Path {
    match o
    case TransportErr(_) => TransportFailed
    case Resp(status, _, body) =>
      if !IsSuccess(status) then HttpFailed
      else if body.Undecodable? then ParseFailed
      else Parsed
  }

  // ---------------------------------------------------------------------
  // Untyped JSON (`serde_json::Value`) and the accessors the adapters use.

  datatype Json =
    | JNull
    | JBool(b: bool)
    | JNum(n: int)
    | JStr(s: string)
    | JArr(items: seq<Json>)
    | JObj(fields: map<string, Json>)

  /** `v.get(key)`: a member of an object. */
  function Get(v: Json, key: string): (r: Option<Json>)
    ensures r.Some? <==> v.JObj? && key in v.fields
  {
    if v.JObj? && key in v.fields then Some(v.fields[key]) else None
  }

  /** `v[key]`: like `get`, but a missing member reads as `null`. */
  function Index(v: Json, key: string): Json {
    Get(v, key).GetOr(JNull)
  }

  /** `v.pointer("/a/b/...")` for a path of member names (none of the paths
      used is a number, so array steps never match). */
  function Pointer(v: Json, path: seq<string>): (r: Option<Json>)
    ensures path == [] ==> r == Some(v)
    decreases |path|
  {
    if path == [] then Some(v)
    else match Get(v, path[0])
      case None => None
      case Some(child) => Pointer(child, path[1..])
  }

  function AsStr(v: Json): Option<string> {
    if v.JStr? then Some(v.s) else None
  }

  /** `as_i64`: numbers that fit in 64 signed bits. */
  function AsI64(v: Json): (r: Option<int>)
    ensures r.Some? ==> -0x8000_0000_0000_0000 <= r.value < 0x8000_0000_0000_0000
  {
    if v.JNum? && -0x8000_0000_0000_0000 <= v.n < 0x8000_0000_0000_0000 then Some(v.n) else None
  }

  function AsArray(v: Json): Option<seq<Json>> {
    if v.JArr? then Some(v.items) else None
  }

  /** Chains an optional value through a partial accessor (`and_then`). */
  function AndThenStr(o: Option<Json>): Option<string> {
    if o.Some? then AsStr(o.value) else None
  }

  function AndThenI64(o: Option<Json>): Option<int> {
    if o.Some? then AsI64(o.value) else None
  }

  function AndThenArray(o: Option<Json>): Option<seq<Json>> {
    if o.Some? then AsArray(o.value) else None
  }

  // ---------------------------------------------------------------------
  // The uniform status record.

  /** The backend-specific `extras` payloads. `NoTorrentInfo` is the empty
      object `{}` that the torrent client's summary degrades to. */
  datatype Extras =
    | IndexerExtras(totalIndexers: nat, failedCount: nat, failedIndexers: seq<string>)
    | TorrentExtras(totalTorrents: nat, downloading: nat, downloadingNames: seq<string>)
    | NoTorrentInfo
    | SessionExtras(activeSessions: int, sessions: seq<string>)
    | SeriesExtras(missingEpisodes: int, totalSeries: nat)

  datatype ServiceStatus = ServiceStatus(
    name: string,
    active: bool,
    message: string,
    version: Option<string>,
    extras: Option<Extras>)

  /** The status record's invariant: an inactive backend never carries extras. */
  predicate WellFormed(st: ServiceStatus) {
    !st.active ==> st.extras.None?
  }

  /** `format!("{} active session(s)", n)`: the count, read back as a number
      from the text before the fixed suffix. */
  function SessionsMessage(n: int): (r: string)
    ensures |r| >= 18 && r[|r| - 18..] == " active session(s)" && ParseInt(r[..|r| - 18]) == Some(n)
  {
    IntToStringRoundTrip(n);
    IntToString(n) + " active session(s)"
  }
}
