/** The Emby media server adapter (src/api/emby.rs): the status poll
    counts only the sessions that are playing something. */
module Emby {
  import opened Base
  import opened Http

  /** One session as the poll reads it (`EmbySession`): its id, the user's
      name and the name of the item playing, if any. */
  datatype EmbySession = EmbySession(id: string, userName: Option<string>, nowPlaying: Option<string>)

  /** `format!("{}/Sessions?api_key={}", url, api_key)` */
  function SessionsUrl(url: string, key: string): string {
    url + "/Sessions?api_key=" + key
  }

  /** `.filter(|s| s.now_playing_item.is_some())` */
  function Playing(ss: seq<EmbySession>): (r: seq<EmbySession>)
    ensures |r| <= |ss|
    ensures forall s :: s in r <==> s in ss && s.nowPlaying.Some?
  {
    if ss == [] then []
    else (if ss[0].nowPlaying.Some? then [ss[0]] else []) + Playing(ss[1..])
  }

  /** The filter keeps the sessions' order: it distributes over concatenation. */
  lemma {:induction false} PlayingAppend(a: seq<EmbySession>, b: seq<EmbySession>)
    ensures Playing(a + b) == Playing(a) + Playing(b)
  {
    if a == [] {
      assert a + b == b;
    } else {
      assert (a + b)[1..] == a[1..] + b;
      PlayingAppend(a[1..], b);
    }
  }

  /** `"item (user)"`, each part defaulting to "Unknown". */
  function SessionLabel(s: EmbySession): string {
    s.nowPlaying.GetOr("Unknown") + " (" + s.userName.GetOr("Unknown") + ")"
  }

  function SessionLabels(ss: seq<EmbySession>): (r: seq<string>)
    ensures |r| == |ss| && forall k :: 0 <= k < |r| ==> r[k] == SessionLabel(ss[k])
  {
    if ss == [] then [] else [SessionLabel(ss[0])] + SessionLabels(ss[1..])
  }

  /** The status record for the answer to the sessions request. */
  function StatusOf(o: Outcome<seq<EmbySession>>): (st: ServiceStatus)
    ensures st.name == "Emby" && st.version.None? && WellFormed(st)
    ensures st.active <==> o.Resp? && IsSuccess(o.status)
    ensures o.TransportErr? ==> st.message == o.error
    ensures o.Resp? && !IsSuccess(o.status) ==> st.message == "HTTP " + StatusText(o.status)
    ensures PathOf(o) == ParseFailed ==> st.extras.None? && st.message == "Parse Error: " + o.body.reason
    ensures PathOf(o) == Parsed ==> st.extras.Some?
  {
    match o
    case TransportErr(e) => ServiceStatus("Emby", false, e, None, None)
    case Resp(status, _, body) =>
      if !IsSuccess(status) then ServiceStatus("Emby", false, "HTTP " + StatusText(status), None, None)
      else match body
        case Undecodable(reason) => ServiceStatus("Emby", true, "Parse Error: " + reason, None, None)
        case Decoded(sessions) =>
          var active := Playing(sessions);
          ServiceStatus("Emby", true, SessionsMessage(|active|), None, Some(SessionExtras(|active|, SessionLabels(active))))
  }

  /** `get_status`: one GET of the sessions endpoint. */
  function GetStatus(url: string, key: string, get: string -> Outcome<seq<EmbySession>>): (st: ServiceStatus)
  {
    StatusOf(get(SessionsUrl(url, key)))
  }

  /** On a parsed answer the count, the message and the names agree: one
      name per playing session, in session order, each naming the item
      and the user; idle sessions are not counted. */
  lemma ParsedSessions(o: Outcome<seq<EmbySession>>)
    requires PathOf(o) == Parsed
    ensures var st := StatusOf(o);
      var active := Playing(o.body.value);
      st.extras.Some? && st.extras.value.SessionExtras?
      && st.extras.value.activeSessions == |st.extras.value.sessions| == |active|
      && st.message == SessionsMessage(|st.extras.value.sessions|)
      && (forall k :: 0 <= k < |active| ==>
            st.extras.value.sessions[k] == active[k].nowPlaying.value + " (" + active[k].userName.GetOr("Unknown") + ")"
            && active[k] in o.body.value)
  {
    var active := Playing(o.body.value);
    forall k | 0 <= k < |active| ensures active[k].nowPlaying.Some? && active[k] in o.body.value {
      assert active[k] in active;
    }
  }

  /** Sessions that play nothing never show up. */
  lemma IdleNotCounted(o: Outcome<seq<EmbySession>>)
    requires PathOf(o) == Parsed
    requires forall k :: 0 <= k < |o.body.value| ==> o.body.value[k].nowPlaying.None?
    ensures StatusOf(o).extras == Some(SessionExtras(0, []))
  {
  }
}
