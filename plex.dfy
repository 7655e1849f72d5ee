/** The media server adapter (src/api/plex.rs): the status poll over the
    typed sessions view, and the three helpers that navigate untyped JSON
    (server identity, libraries with their item counts, recently added
    items). Each GET is the parameter `get`, from the URL requested to the
    outcome. */
module Plex {
  import opened Base
  import opened Text
  import opened Http

  // ---------------------------------------------------------------------
  // get_status

  /** One entry of `MediaContainer.Metadata`: its title and its user's title. */
  datatype PlexSession = PlexSession(title: Option<string>, user: Option<string>)

  /** `MediaContainer`: `size` (an `i32`, 0 when absent) and the optional entries. */
  datatype MediaContainer = MediaContainer(size: int, metadata: Option<seq<PlexSession>>)

  /** `format!("{}/status/sessions?X-Plex-Token={}", url, token)` (the URL is not trimmed here). */
  function SessionsUrl(url: string, token: string): string {
    url + "/status/sessions?X-Plex-Token=" + token
  }

  /** `"title (user)"`, each part defaulting to "Unknown". */
  function SessionLabel(s: PlexSession): string {
    s.title.GetOr("Unknown") + " (" + s.user.GetOr("Unknown") + ")"
  }

  function SessionLabels(meta: seq<PlexSession>): (r: seq<string>)
    ensures |r| == |meta| && forall k :: 0 <= k < |r| ==> r[k] == SessionLabel(meta[k])
  {
    if meta == [] then [] else [SessionLabel(meta[0])] + SessionLabels(meta[1..])
  }

  /** The status record for the answer to the sessions request; the
      message reports `size`, not the number of entries. */
  function StatusOf(o: Outcome<MediaContainer>): (st: ServiceStatus)
    ensures st.name == "Plex" && st.version.None? && WellFormed(st)
    ensures st.active <==> o.Resp? && IsSuccess(o.status)
    ensures o.TransportErr? ==> st.message == o.error
    ensures o.Resp? && !IsSuccess(o.status) ==> st.message == "HTTP " + StatusText(o.status)
    ensures PathOf(o) == ParseFailed ==> st.extras.None? && st.message == "Parse Error: " + o.body.reason
    ensures PathOf(o) == Parsed ==>
      var mc := o.body.value;
      st.message == SessionsMessage(mc.size)
      && st.extras == Some(SessionExtras(mc.size, if mc.metadata.Some? then SessionLabels(mc.metadata.value) else []))
  {
    match o
    case TransportErr(e) => ServiceStatus("Plex", false, e, None, None)
    case Resp(status, _, body) =>
      if !IsSuccess(status) then ServiceStatus("Plex", false, "HTTP " + StatusText(status), None, None)
      else match body
        case Undecodable(reason) => ServiceStatus("Plex", true, "Parse Error: " + reason, None, None)
        case Decoded(mc) =>
          var names := match mc.metadata
            case Some(meta) => SessionLabels(meta)
            case None => [];
          ServiceStatus("Plex", true, SessionsMessage(mc.size), None, Some(SessionExtras(mc.size, names)))
  }

  /** `get_status`: one GET of the sessions endpoint. */
  function GetStatus(url: string, token: string, get: string -> Outcome<MediaContainer>): (st: ServiceStatus)
  {
    StatusOf(get(SessionsUrl(url, token)))
  }

  /** A parsed answer always carries extras: as many labels as entries, and
      none without `Metadata`, whatever `size` says. */
  lemma ParsedSessions(o: Outcome<MediaContainer>)
    requires PathOf(o) == Parsed
    ensures var st := StatusOf(o);
      st.active && st.extras.Some? && st.extras.value.SessionExtras?
      && st.extras.value.activeSessions == o.body.value.size
      && |st.extras.value.sessions| == (if o.body.value.metadata.Some? then |o.body.value.metadata.value| else 0)
  {
  }

  // ---------------------------------------------------------------------
  // The JSON helpers

  /** What the helpers make of an answer before reading it: the transport
      error, `"HTTP <status>"` for a non-success status, the decoding error,
      or the JSON. */
  function JsonBody(o: Outcome<Json>): (r: Result<Json>)
    ensures r.Ok? <==> PathOf(o) == Parsed
    ensures r.Ok? ==> r.value == o.body.value
    ensures o.TransportErr? ==> r == Err(o.error)
    ensures o.Resp? && !IsSuccess(o.status) ==> r == Err("HTTP " + StatusText(o.status))
    ensures PathOf(o) == ParseFailed ==> r == Err(o.body.reason)
  {
    match o
    case TransportErr(e) => Err(e)
    case Resp(status, _, body) =>
      if !IsSuccess(status) then Err("HTTP " + StatusText(status))
      else match body
        case Undecodable(reason) => Err(reason)
        case Decoded(v) => Ok(v)
  }

  /** `url.trim_end_matches('/')` */
  function BaseUrl(url: string): string {
    TrimEndSlashes(url)
  }

  /** `format!("{}/?X-Plex-Token={}", base, token)` */
  function ServerUrl(base: string, token: string): string {
    base + "/?X-Plex-Token=" + token
  }

  /** The server's identity as the helper returns it (`machine_id`, `server_name`). */
  datatype ServerInfo = ServerInfo(machineId: string, serverName: string)

  /** `json.pointer("/MediaContainer/<key>").or_else(|| json.get(<key>))`:
      the nested member when present, otherwise the top-level one. */
  function Lookup(json: Json, key: string): (r: Option<Json>)
    ensures Pointer(json, ["MediaContainer", key]).Some? ==> r == Pointer(json, ["MediaContainer", key])
    ensures Pointer(json, ["MediaContainer", key]).None? ==> r == Get(json, key)
  {
    var nested := Pointer(json, ["MediaContainer", key]);
    if nested.Some? then nested else Get(json, key)
  }

  /** `.and_then(|v| v.as_str()).unwrap_or(default)` on a lookup. */
  function LookupStr(json: Json, key: string, default: string): string {
    AndThenStr(Lookup(json, key)).GetOr(default)
  }

  /** `get_server_info` */
  function GetServerInfo(url: string, token: string, get: string -> Outcome<Json>): (r: Result<ServerInfo>)
    ensures var body := JsonBody(get(ServerUrl(BaseUrl(url), token)));
      (r.Err? <==> body.Err?) && (body.Err? ==> r.error == body.error)
      && (body.Ok? ==> r.value == ServerInfo(LookupStr(body.value, "machineIdentifier", ""),
                                             LookupStr(body.value, "friendlyName", "Plex")))
  {
    match JsonBody(get(ServerUrl(BaseUrl(url), token)))
    case Err(e) => Err(e)
    case Ok(json) => Ok(ServerInfo(LookupStr(json, "machineIdentifier", ""), LookupStr(json, "friendlyName", "Plex")))
  }

  /** The fallbacks of a looked-up string: a nested string wins; without a
      nested member a top-level string is used; anything else (a missing
      member, or a nested member that is not a string, which does not fall
      back) gives the default. */
  lemma LookupFallbacks(json: Json, key: string, default: string)
    ensures var nested := Pointer(json, ["MediaContainer", key]);
      var r := LookupStr(json, key, default);
      (nested.Some? && nested.value.JStr? ==> r == nested.value.s)
      && (nested.Some? && !nested.value.JStr? ==> r == default)
      && (nested.None? && json.JObj? && key in json.fields && json.fields[key].JStr? ==> r == json.fields[key].s)
      && (nested.None? && !(json.JObj? && key in json.fields && json.fields[key].JStr?) ==> r == default)
  {
  }

  /** One library; `count` is filled in afterwards. */
  datatype Library = Library(key: string, title: string, libType: string, count: int)

  /** `format!("{}/library/sections?X-Plex-Token={}", base, token)` */
  function SectionsUrl(base: string, token: string): string {
    base + "/library/sections?X-Plex-Token=" + token
  }

  /** The item-count request of one library. */
  function CountUrl(base: string, key: string, token: string): string {
    base + "/library/sections/" + key + "/all?X-Plex-Token=" + token
    + "&X-Plex-Container-Start=0&X-Plex-Container-Size=0"
  }

  /** `v.as_str().unwrap_or(default)` on `d[key]`. */
  function StrOr(d: Json, key: string, default: string): (r: string)
    ensures Get(d, key).Some? && d.fields[key].JStr? ==> r == d.fields[key].s
    ensures !(Get(d, key).Some? && d.fields[key].JStr?) ==> r == default
  {
    AsStr(Index(d, key)).GetOr(default)
  }

  /** The entries at `/MediaContainer/<key>`, none when absent or not an array. */
  function Entries(json: Json, key: string): (r: seq<Json>)
    ensures AndThenArray(Pointer(json, ["MediaContainer", key])).Some? ==>
      r == AndThenArray(Pointer(json, ["MediaContainer", key])).value
    ensures AndThenArray(Pointer(json, ["MediaContainer", key])).None? ==> r == []
  {
    AndThenArray(Pointer(json, ["MediaContainer", key])).GetOr([])
  }

  /** The library of one `Directory` entry, before counting: key "",
      title "Unknown" and type "unknown" by default, count 0. */
  function LibraryOf(d: Json): (lib: Library)
    ensures lib.count == 0
    ensures lib.key == StrOr(d, "key", "") && lib.title == StrOr(d, "title", "Unknown")
    ensures lib.libType == StrOr(d, "type", "unknown")
  {
    Library(StrOr(d, "key", ""), StrOr(d, "title", "Unknown"), StrOr(d, "type", "unknown"), 0)
  }

  /** The count an item-count answer gives: `totalSize` when the body is
      JSON, whatever the status (0 when that member is missing or not a
      64-bit integer); `None` when the request failed or the body is not
      JSON, so the count stays as it was. */
  function CountOf(o: Outcome<Json>): (r: Option<int>)
    ensures r.Some? <==> o.Resp? && o.body.Decoded?
    ensures r.Some? && AndThenI64(Pointer(o.body.value, ["MediaContainer", "totalSize"])).Some? ==>
      r.value == AndThenI64(Pointer(o.body.value, ["MediaContainer", "totalSize"])).value
    ensures r.Some? && AndThenI64(Pointer(o.body.value, ["MediaContainer", "totalSize"])).None? ==> r.value == 0
  {
    if o.Resp? && o.body.Decoded? then Some(AndThenI64(Pointer(o.body.value, ["MediaContainer", "totalSize"])).GetOr(0))
    else None
  }

  /** A library after its count request. */
  function Counted(base: string, token: string, d: Json, get: string -> Outcome<Json>): (lib: Library)
    ensures lib == LibraryOf(d).(count := CountOf(get(CountUrl(base, LibraryOf(d).key, token))).GetOr(0))
  {
    var lib := LibraryOf(d);
    match CountOf(get(CountUrl(base, lib.key, token)))
    case Some(n) => lib.(count := n)
    case None => lib
  }

  /** `get_libraries`: one library per `Directory` entry, in order, then a
      loop that fills in each library's count from its own request. */
  method GetLibraries(url: string, token: string, get: string -> Outcome<Json>) returns (r: Result<seq<Library>>)
    ensures var base := BaseUrl(url);
      var body := JsonBody(get(SectionsUrl(base, token)));
      (r.Err? <==> body.Err?) && (body.Err? ==> r.error == body.error)
      && (body.Ok? ==>
            var dirs := Entries(body.value, "Directory");
            |r.value| == |dirs|
            && forall k :: 0 <= k < |dirs| ==> r.value[k] == Counted(base, token, dirs[k], get))
  {
    var base := BaseUrl(url);
    var body := JsonBody(get(SectionsUrl(base, token)));
    if body.Err? {
      return Err(body.error);
    }
    var dirs := Entries(body.value, "Directory");
    var libraries := CountAll(base, token, dirs, get);
    r := Ok(libraries);
  }

  /** The libraries of the `Directory` entries, built first and then
      counted in place, one request each. */
  method CountAll(base: string, token: string, dirs: seq<Json>, get: string -> Outcome<Json>) returns (libs: seq<Library>)
    ensures |libs| == |dirs|
    ensures forall k :: 0 <= k < |dirs| ==> libs[k] == Counted(base, token, dirs[k], get)
  {
    libs := seq(|dirs|, k requires 0 <= k < |dirs| => LibraryOf(dirs[k]));
    for i := 0 to |libs|
      invariant |libs| == |dirs|
      invariant forall k :: 0 <= k < i ==> libs[k] == Counted(base, token, dirs[k], get)
      invariant forall k :: i <= k < |dirs| ==> libs[k] == LibraryOf(dirs[k])
    {
      var counted := CountLibrary(base, token, libs[i], get);
      libs := libs[i := counted];
    }
  }

  /** One turn of the count loop: request the library's item count and
      take `totalSize` when the answer is JSON, whatever its status. */
  method CountLibrary(base: string, token: string, lib: Library, get: string -> Outcome<Json>) returns (r: Library)
    ensures r == lib.(count := CountOf(get(CountUrl(base, lib.key, token))).GetOr(lib.count))
  {
    r := lib;
    var answer := get(CountUrl(base, lib.key, token));
    if answer.Resp? && answer.body.Decoded? {
      r := lib.(count := AndThenI64(Pointer(answer.body.value, ["MediaContainer", "totalSize"])).GetOr(0));
    }
  }

  // ---------------------------------------------------------------------
  // get_recently_added

  datatype RecentItem = RecentItem(
    title: string, mediaType: string, year: Option<int>, thumb: Option<string>,
    grandparentTitle: Option<string>, addedAt: Option<int>)

  function RecentUrl(base: string, token: string, limit: nat): string {
    base + "/library/recentlyAdded?X-Plex-Token=" + token
    + "&X-Plex-Container-Start=0&X-Plex-Container-Size=" + IntToString(limit)
  }

  const TwoTo32: int := 0x1_0000_0000
  const TwoTo31: int := 0x8000_0000

  /** `y as i32`: the low 32 bits, read as a signed number. */
  function WrapI32(y: int): (r: int)
    ensures -TwoTo31 <= r < TwoTo31
    ensures (r - y) % TwoTo32 == 0
    ensures -TwoTo31 <= y < TwoTo31 ==> r == y
  {
    (y + TwoTo31) % TwoTo32 - TwoTo31
  }

  /** The image path: `thumb`, else `grandparentThumb`. */
  function ThumbPath(m: Json): Option<string> {
    var own := AsStr(Index(m, "thumb"));
    if own.Some? then own else AsStr(Index(m, "grandparentThumb"))
  }

  /** `format!("{}{}?X-Plex-Token={}", base, t, token)` */
  function ThumbUrl(base: string, path: string, token: string): (r: string)
    ensures |r| == |base| + |path| + 14 + |token|
    ensures r[..|base|] == base && r[|base|..|base| + |path|] == path
    ensures r[|base| + |path|..] == "?X-Plex-Token=" + token
  {
    base + path + "?X-Plex-Token=" + token
  }

  function RecentItemOf(base: string, token: string, m: Json): RecentItem {
    var path := ThumbPath(m);
    RecentItem(
      StrOr(m, "title", "Unknown"),
      StrOr(m, "type", "unknown"),
      if AsI64(Index(m, "year")).Some? then Some(WrapI32(AsI64(Index(m, "year")).value)) else None,
      if path.Some? then Some(ThumbUrl(base, path.value, token)) else None,
      AsStr(Index(m, "grandparentTitle")),
      AsI64(Index(m, "addedAt")))
  }

  function RecentItems(base: string, token: string, items: seq<Json>): (r: seq<RecentItem>)
    ensures |r| == |items| && forall k :: 0 <= k < |r| ==> r[k] == RecentItemOf(base, token, items[k])
  {
    if items == [] then [] else [RecentItemOf(base, token, items[0])] + RecentItems(base, token, items[1..])
  }

  /** `get_recently_added`: one item per `Metadata` entry, in order. */
  function GetRecentlyAdded(url: string, token: string, limit: nat, get: string -> Outcome<Json>): (r: Result<seq<RecentItem>>)
    ensures var body := JsonBody(get(RecentUrl(BaseUrl(url), token, limit)));
      (r.Err? <==> body.Err?) && (body.Err? ==> r.error == body.error)
      && (body.Ok? ==> r.value == RecentItems(BaseUrl(url), token, Entries(body.value, "Metadata")))
  {
    var base := BaseUrl(url);
    match JsonBody(get(RecentUrl(base, token, limit)))
    case Err(e) => Err(e)
    case Ok(json) => Ok(RecentItems(base, token, Entries(json, "Metadata")))
  }

  /** An item's image: present exactly when the entry has a `thumb` or a
      `grandparentThumb` string, taken from `thumb` when both exist, and
      always the trimmed server URL, the path and the token query. */
  lemma RecentThumb(url: string, token: string, m: Json)
    ensures var item := RecentItemOf(BaseUrl(url), token, m);
      var own := AsStr(Index(m, "thumb"));
      var parent := AsStr(Index(m, "grandparentThumb"));
      (item.thumb.Some? <==> own.Some? || parent.Some?)
      && (own.Some? ==> item.thumb == Some(BaseUrl(url) + own.value + "?X-Plex-Token=" + token))
      && (own.None? && parent.Some? ==> item.thumb == Some(BaseUrl(url) + parent.value + "?X-Plex-Token=" + token))
      && (item.thumb.Some? ==> |BaseUrl(url)| <= |item.thumb.value| && item.thumb.value[..|BaseUrl(url)|] == BaseUrl(url)
                               && (|BaseUrl(url)| == 0 || item.thumb.value[|BaseUrl(url)| - 1] != '/'))
  {
    var base := BaseUrl(url);
    var path := ThumbPath(m);
    if path.Some? {
      var t := ThumbUrl(base, path.value, token);
      assert t[..|base|] == base;
      if |base| > 0 {
        assert t[|base| - 1] == base[|base| - 1];
      }
    }
  }

  /** The defaults of an item: title "Unknown", type "unknown", and a
      `year` that always fits 32 signed bits. */
  lemma RecentDefaults(base: string, token: string, m: Json)
    ensures var item := RecentItemOf(base, token, m);
      (AsStr(Index(m, "title")).None? ==> item.title == "Unknown")
      && (AsStr(Index(m, "type")).None? ==> item.mediaType == "unknown")
      && (item.year.Some? <==> AsI64(Index(m, "year")).Some?)
      && (item.year.Some? ==> -TwoTo31 <= item.year.value < TwoTo31)
      && (item.year.Some? ==> item.year.value == WrapI32(AsI64(Index(m, "year")).value))
  {
  }
}
