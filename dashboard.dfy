/** The dashboard handlers of src/main.rs that decide which backends are
    contacted: the status fan-out, the per-service settings dispatch and
    the search handlers' empty-term guard. Each backend adapter is a
    parameter: a function from the call made to what it returns. */
module Dashboard {
  import opened Base
  import opened Http
  import opened AppConfig

  datatype Backend = Plex | Sonarr | Radarr | Jackett | Transmission | Jellyfin | Emby

  /** Every backend. */
  const AllBackends: set<Backend> := {Plex, Sonarr, Radarr, Jackett, Transmission, Jellyfin, Emby}

  /** A backend's position in the order `get_all_status` visits them:
      Plex, Sonarr, Radarr, Jackett, Transmission, Jellyfin, Emby. */
  function Rank(b: Backend): (n: nat)
    ensures n < 7
  {
    match b
    case Plex => 0
    case Sonarr => 1
    case Radarr => 2
    case Jackett => 3
    case Transmission => 4
    case Jellyfin => 5
    case Emby => 6
  }

  function UrlOf(c: Config, b: Backend): string {
    match b
    case Plex => c.plexUrl
    case Sonarr => c.sonarrUrl
    case Radarr => c.radarrUrl
    case Jackett => c.jackettUrl
    case Transmission => c.transmissionUrl
    case Jellyfin => c.jellyfinUrl
    case Emby => c.embyUrl
  }

  /** The stored secret each backend is handed: its API key, the Plex
      token, or the torrent client's password. */
  function SecretFieldOf(b: Backend): Secret {
    match b
    case Plex => PlexToken
    case Sonarr => SonarrKey
    case Radarr => RadarrKey
    case Jackett => JackettKey
    case Transmission => TransmissionPass
    case Jellyfin => JellyfinKey
    case Emby => EmbyKey
  }

  /** One adapter invocation: the backend, its URL and the credentials
      handed to it (only the torrent client takes a user name). */
  datatype Call = Call(backend: Backend, url: string, user: string, secret: string)

  function CallFor(c: Config, b: Backend): (r: Call)
    ensures r.backend == b && r.url == UrlOf(c, b)
    ensures r.secret == SecretOf(c, SecretFieldOf(b))
    ensures b != Transmission ==> r.user == ""
    ensures b == Transmission ==> r.user == c.transmissionUser
  {
    match b
    case Plex => Call(Plex, c.plexUrl, "", c.plexToken)
    case Sonarr => Call(Sonarr, c.sonarrUrl, "", c.sonarrKey)
    case Radarr => Call(Radarr, c.radarrUrl, "", c.radarrKey)
    case Jackett => Call(Jackett, c.jackettUrl, "", c.jackettKey)
    case Transmission => Call(Transmission, c.transmissionUrl, c.transmissionUser, c.transmissionPass)
    case Jellyfin => Call(Jellyfin, c.jellyfinUrl, "", c.jellyfinKey)
    case Emby => Call(Emby, c.embyUrl, "", c.embyKey)
  }

  // ---------------------------------------------------------------------
  // get_all_status

  /** The backend, if its URL is set. */
  function Pick(c: Config, b: Backend): (r: seq<Backend>)
    ensures |r| <= 1 && (forall x :: x in r ==> x == b)
    ensures r != [] <==> UrlOf(c, b) != ""
  {
    if UrlOf(c, b) != "" then [b] else []
  }

  /** The backends the status fan-out contacts, in the order it visits them. */
  function Configured(c: Config): seq<Backend> {
    Pick(c, Plex) + Pick(c, Sonarr) + Pick(c, Radarr) + Pick(c, Jackett)
    + Pick(c, Transmission) + Pick(c, Jellyfin) + Pick(c, Emby)
  }

  /** Strictly increasing positions in the visiting order. */
  predicate InRankOrder(r: seq<Backend>) {
    forall i, j :: 0 <= i < j < |r| ==> Rank(r[i]) < Rank(r[j])
  }

  /** Every backend in `r` comes before position `n`. */
  predicate Below(r: seq<Backend>, n: nat) {
    forall x :: x in r ==> Rank(x) < n
  }

  /** Appending a backend that comes after everything already listed keeps
      the list in visiting order. */
  lemma PickInOrder(c: Config, r: seq<Backend>, b: Backend)
    requires InRankOrder(r) && Below(r, Rank(b))
    ensures InRankOrder(r + Pick(c, b)) && Below(r + Pick(c, b), Rank(b) + 1)
  {
    var s := r + Pick(c, b);
    forall i, j | 0 <= i < j < |s| ensures Rank(s[i]) < Rank(s[j]) {
      if j >= |r| {
        assert s[j] == b && s[i] == r[i] && r[i] in r;
      }
    }
  }

  /** A backend is contacted exactly when its URL is set, each at most
      once, always in the fixed order Plex, Sonarr, Radarr, Jackett,
      Transmission, Jellyfin, Emby. */
  lemma ConfiguredSpec(c: Config)
    ensures forall b :: b in Configured(c) <==> UrlOf(c, b) != ""
    ensures InRankOrder(Configured(c))
  {
    ConfiguredMembers(c);
    ConfiguredInOrder(c);
  }

  /** `r` holds exactly the backends before position `n` whose URL is set. */
  predicate Exactly(c: Config, r: seq<Backend>, n: nat) {
    forall x :: x in r <==> Rank(x) < n && UrlOf(c, x) != ""
  }

  lemma RankInjective(x: Backend, y: Backend)
    requires Rank(x) == Rank(y)
    ensures x == y
  {
  }

  /** Appending the backend at position `n` extends the account to `n + 1`. */
  lemma PickExactly(c: Config, r: seq<Backend>, b: Backend)
    requires Exactly(c, r, Rank(b))
    ensures Exactly(c, r + Pick(c, b), Rank(b) + 1)
  {
    forall x ensures x in r + Pick(c, b) <==> Rank(x) < Rank(b) + 1 && UrlOf(c, x) != "" {
      if Rank(x) == Rank(b) {
        RankInjective(x, b);
      }
    }
  }

  lemma ConfiguredMembers(c: Config)
    ensures forall b :: b in Configured(c) <==> UrlOf(c, b) != ""
  {
    var r1 := Pick(c, Plex);
    var r2 := r1 + Pick(c, Sonarr);
    var r3 := r2 + Pick(c, Radarr);
    var r4 := r3 + Pick(c, Jackett);
    var r5 := r4 + Pick(c, Transmission);
    var r6 := r5 + Pick(c, Jellyfin);
    PickExactly(c, [], Plex);
    assert [] + Pick(c, Plex) == r1;
    PickExactly(c, r1, Sonarr);
    PickExactly(c, r2, Radarr);
    PickExactly(c, r3, Jackett);
    PickExactly(c, r4, Transmission);
    PickExactly(c, r5, Jellyfin);
    PickExactly(c, r6, Emby);
  }

  lemma ConfiguredInOrder(c: Config)
    ensures InRankOrder(Configured(c))
  {
    var r1 := Pick(c, Plex);
    var r2 := r1 + Pick(c, Sonarr);
    var r3 := r2 + Pick(c, Radarr);
    var r4 := r3 + Pick(c, Jackett);
    var r5 := r4 + Pick(c, Transmission);
    var r6 := r5 + Pick(c, Jellyfin);
    assert InRankOrder(r1) && Below(r1, 1);
    PickInOrder(c, r1, Sonarr);
    PickInOrder(c, r2, Radarr);
    PickInOrder(c, r3, Jackett);
    PickInOrder(c, r4, Transmission);
    PickInOrder(c, r5, Jellyfin);
    PickInOrder(c, r6, Emby);
  }

  lemma {:induction false} DistinctCard(r: seq<Backend>)
    requires InRankOrder(r)
    ensures |set b | b in r| == |r|
  {
    if r != [] {
      var tail := r[1..];
      assert InRankOrder(tail) by {
        forall i, j | 0 <= i < j < |tail| ensures Rank(tail[i]) < Rank(tail[j]) {
          assert tail[i] == r[i + 1] && tail[j] == r[j + 1];
        }
      }
      DistinctCard(tail);
      assert r[0] !in tail by {
        forall k | 0 <= k < |tail| ensures tail[k] != r[0] {
          assert tail[k] == r[k + 1];
        }
      }
      assert r == [r[0]] + tail;
      assert (set b | b in r) == {r[0]} + (set b | b in tail);
    }
  }

  /** One status per backend whose URL is set: the fan-out's length is the
      number of such backends, at most seven. */
  lemma ConfiguredCount(c: Config)
    ensures |Configured(c)| == |set b | b in AllBackends && UrlOf(c, b) != ""|
    ensures |Configured(c)| <= 7
  {
    var r := Configured(c);
    ConfiguredSpec(c);
    DistinctCard(r);
    var listed := set b | b in r;
    var withUrl := set b | b in AllBackends && UrlOf(c, b) != "";
    forall b ensures b in listed <==> b in withUrl {
      match b
      case Plex => case Sonarr => case Radarr => case Jackett =>
      case Transmission => case Jellyfin => case Emby =>
    }
    assert listed == withUrl;
  }

  /** One status per backend contacted, each the adapter's answer. */
  predicate Polled(c: Config, poll: Call -> ServiceStatus, statuses: seq<ServiceStatus>, contacted: seq<Backend>) {
    |statuses| == |contacted| && forall i :: 0 <= i < |statuses| ==> statuses[i] == poll(CallFor(c, contacted[i]))
  }

  /** One `if !config.<backend>_url.is_empty()` block of the fan-out: when
      the backend's URL is set, call its adapter with that URL and its
      credentials and push the status. */
  method PollIfSet(c: Config, b: Backend, poll: Call -> ServiceStatus, statuses: seq<ServiceStatus>, contacted: seq<Backend>)
    returns (statuses': seq<ServiceStatus>, contacted': seq<Backend>)
    requires Polled(c, poll, statuses, contacted)
    ensures contacted' == contacted + Pick(c, b)
    ensures Polled(c, poll, statuses', contacted')
  {
    statuses', contacted' := statuses, contacted;
    if UrlOf(c, b) != "" {
      statuses' := statuses + [poll(CallFor(c, b))];
      contacted' := contacted + [b];
    }
  }

  /** `get_all_status`: poll each backend whose URL is set, in the fixed
      order, pushing one status per call. `poll` stands for the adapters;
      `contacted` lists the backends polled. */
  method GetAllStatus(c: Config, poll: Call -> ServiceStatus) returns (statuses: seq<ServiceStatus>, contacted: seq<Backend>)
    ensures contacted == Configured(c)
    ensures Polled(c, poll, statuses, contacted)
  {
    statuses, contacted := [], [];
    statuses, contacted := PollIfSet(c, Plex, poll, statuses, contacted);
    statuses, contacted := PollIfSet(c, Sonarr, poll, statuses, contacted);
    statuses, contacted := PollIfSet(c, Radarr, poll, statuses, contacted);
    statuses, contacted := PollIfSet(c, Jackett, poll, statuses, contacted);
    statuses, contacted := PollIfSet(c, Transmission, poll, statuses, contacted);
    statuses, contacted := PollIfSet(c, Jellyfin, poll, statuses, contacted);
    statuses, contacted := PollIfSet(c, Emby, poll, statuses, contacted);
  }

  // ---------------------------------------------------------------------
  // Settings dispatch and search guards

  /** A handler's reply: a value, or an HTTP error status with its text. */
  datatype Reply<T> = Done(value: T) | Fail(code: nat, message: string)

  const BadRequest: nat := 400
  const NotFound: nat := 404
  const InternalError: nat := 500
  const StatusOk: nat := 200

  /** The path segments the settings handlers dispatch on. */
  function ServiceOf(service: string): (r: Option<Backend>)
    ensures r == Some(Sonarr) <==> service == "sonarr"
    ensures r == Some(Radarr) <==> service == "radarr"
    ensures r == Some(Transmission) <==> service == "transmission"
    ensures r.None? <==> service !in {"sonarr", "radarr", "transmission"}
  {
    if service == "sonarr" then Some(Sonarr)
    else if service == "radarr" then Some(Radarr)
    else if service == "transmission" then Some(Transmission)
    else None
  }

  /** `internal_err`: an adapter's error becomes a 500 with its text. */
  function Internal<T>(r: Result<T>): (reply: Reply<T>)
    ensures r.Ok? ==> reply == Done(r.value)
    ensures r.Err? ==> reply == Fail(InternalError, r.error)
  {
    match r
    case Ok(v) => Done(v)
    case Err(e) => Fail(InternalError, e)
  }

  /** `get_service_settings`: fetch the named service's own settings; an
      unknown name is a 404 and contacts nothing. Returns the reply and the
      calls made. */
  function GetServiceSettings(c: Config, service: string, fetch: Call -> Result<Json>): (r: (Reply<Json>, seq<Call>))
    ensures ServiceOf(service).None? ==> r == (Fail(NotFound, "Service not found"), [])
    ensures ServiceOf(service).Some? ==>
      var call := CallFor(c, ServiceOf(service).value);
      r.1 == [call] && r.0 == Internal(fetch(call))
  {
    match ServiceOf(service)
    case None => (Fail(NotFound, "Service not found"), [])
    case Some(b) =>
      var call := CallFor(c, b);
      (Internal(fetch(call)), [call])
  }

  /** `update_service_settings`: push the payload to the named service; on
      success the change is logged under the service's name and the reply
      is 200, on failure the reply is a 500 and nothing is logged. Returns
      the reply, the calls made and the audit events written. */
  function UpdateServiceSettings(c: Config, service: string, payload: Json, update: (Call, Json) -> Result<Json>)
    : (r: (Reply<nat>, seq<Call>, seq<AuditEvent>))
    ensures ServiceOf(service).None? ==> r == (Fail(NotFound, "Service not found"), [], [])
    ensures ServiceOf(service).Some? ==>
      var call := CallFor(c, ServiceOf(service).value);
      r.1 == [call]
      && (update(call, payload).Ok? ==>
            r.0 == Done(StatusOk) && r.2 == [AuditEvent(service, "Settings Updated", "Configuration changes applied via Dashboard")])
      && (update(call, payload).Err? ==> r.0 == Fail(InternalError, update(call, payload).error) && r.2 == [])
  {
    match ServiceOf(service)
    case None => (Fail(NotFound, "Service not found"), [], [])
    case Some(b) =>
      var call := CallFor(c, b);
      match update(call, payload)
      case Ok(_) => (Done(StatusOk), [call], [AuditEvent(service, "Settings Updated", "Configuration changes applied via Dashboard")])
      case Err(e) => (Fail(InternalError, e), [call], [])
  }

  /** `q.term.unwrap_or_default()`, then the guard every search handler
      applies before contacting anything. */
  function TermOf(term: Option<string>): string {
    term.GetOr("")
  }

  const MissingTerm: string := "Missing 'term' parameter"

  /** `global_search`: with a term, each configured library manager is
      searched and a failed search reads as null; without one, a 400 and
      no call. */
  function GlobalSearch(c: Config, term: Option<string>, search: (Call, string) -> Result<Json>)
    : (r: (Reply<Json>, seq<Call>))
    ensures TermOf(term) == "" ==> r == (Fail(BadRequest, MissingTerm), [])
    ensures TermOf(term) != "" ==>
      r.1 == (if c.sonarrUrl != "" then [CallFor(c, Sonarr)] else [])
           + (if c.radarrUrl != "" then [CallFor(c, Radarr)] else [])
      && r.0.Done? && r.0.value.JObj? && r.0.value.fields.Keys == {"sonarr", "radarr"}
    ensures TermOf(term) != "" && c.sonarrUrl != "" && search(CallFor(c, Sonarr), TermOf(term)).Ok? ==>
      r.0.value.fields["sonarr"] == search(CallFor(c, Sonarr), TermOf(term)).value
    ensures TermOf(term) != "" && (c.sonarrUrl == "" || search(CallFor(c, Sonarr), TermOf(term)).Err?) ==>
      r.0.value.fields["sonarr"] == JNull
    ensures TermOf(term) != "" && c.radarrUrl != "" && search(CallFor(c, Radarr), TermOf(term)).Ok? ==>
      r.0.value.fields["radarr"] == search(CallFor(c, Radarr), TermOf(term)).value
    ensures TermOf(term) != "" && (c.radarrUrl == "" || search(CallFor(c, Radarr), TermOf(term)).Err?) ==>
      r.0.value.fields["radarr"] == JNull
  {
    var t := TermOf(term);
    if t == "" then (Fail(BadRequest, MissingTerm), [])
    else
      var sonarrCalls := if c.sonarrUrl != "" then [CallFor(c, Sonarr)] else [];
      var radarrCalls := if c.radarrUrl != "" then [CallFor(c, Radarr)] else [];
      var sonarr := if c.sonarrUrl != "" then Found(search(CallFor(c, Sonarr), t)) else JNull;
      var radarr := if c.radarrUrl != "" then Found(search(CallFor(c, Radarr), t)) else JNull;
      (Done(JObj(map["sonarr" := sonarr, "radarr" := radarr])), sonarrCalls + radarrCalls)
  }

  /** A search result, or null when the search failed (`if let Ok(res)`). */
  function Found(r: Result<Json>): (v: Json)
    ensures r.Ok? ==> v == r.value
    ensures r.Err? ==> v == JNull
  {
    if r.Ok? then r.value else JNull
  }

  /** `sonarr_search_series` and `radarr_search_movies`: the guard, then
      one search of the backend whatever its URL. */
  function SearchBackend(c: Config, b: Backend, term: Option<string>, search: (Call, string) -> Result<Json>)
    : (r: (Reply<Json>, seq<Call>))
    requires b == Sonarr || b == Radarr
    ensures TermOf(term) == "" ==> r == (Fail(BadRequest, MissingTerm), [])
    ensures TermOf(term) != "" ==>
      r == (Internal(search(CallFor(c, b), TermOf(term))), [CallFor(c, b)])
  {
    var t := TermOf(term);
    if t == "" then (Fail(BadRequest, MissingTerm), [])
    else (Internal(search(CallFor(c, b), t)), [CallFor(c, b)])
  }
}
