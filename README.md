# media-dashboard, modelled in Dafny

The media dashboard is a small web server. It keeps one URL and one
credential per backend: the Plex and Emby media servers, the Sonarr
series manager, the Jackett indexer proxy and the Transmission torrent
client (Radarr and Jellyfin are known only through the calls made to
them). It polls every configured backend for a uniform status record,
relays the settings and search calls of the frontend, and shows the
stored configuration with every secret masked.

This project models the parts of that server that make decisions, and
proves what they promise:

- **Indexer scanner** (`jackett.dfy`). The literal-string scanner over
  the Torznab XML: attribute and element extraction, the 300-character
  counting window, and the list loop. Both loops are methods proved
  against a specification of all marker positions (`Occurrences`).
- **Credential masking** (`config.dfy`). The mask applied when the
  configuration is read and the merge applied when it is written back.
  The in-memory store is a class whose update replaces the configuration
  wholesale.
- **Fan-out** (`dashboard.dfy`). The status poll in its fixed backend
  order, the settings dispatch on a service name, and the empty-term
  guard of the search handlers.
- **Adapters**, one per backend:
  - `transmission.dfy`: the RPC exchange with its 409 session-id
    handshake, as a method over a server object that logs each request;
    the status classification; the torrent summary; the request bodies.
  - `plex.dfy`: the status classification; the JSON helpers with their
    fallbacks; the library count loop over the sequence of libraries; the thumbnail URLs.
  - `emby.dfy`: the status classification and the playing-session filter.
  - `sonarr.dfy`: the status classification, the two independent counts,
    and the deletion endpoint.

Shared pieces:

- `base.dfy`: Option, Result, decimal rendering and its inverse.
- `text.dfy`: Rust's `find`, `contains`, `trim` and `trim_end_matches('/')`.
- `http.dfy`: the outcome of one HTTP exchange, an untyped JSON value, and
  the status record with its invariant that an inactive backend carries
  no extras.

Network calls are never performed. Each request's outcome is a
parameter: `Outcome<B>` is a transport error, or a status, headers and a
body decoded to `B` (or not decodable, with a reason).

## Model

| member | source | states |
|---|---|---|
| Text.FindSpec | src/api/jackett.rs:123-126 | `find` returns the first occurrence of the needle, and none exactly when there is no occurrence |
| Text.TrimSpec | src/api/jackett.rs:136 | `trim` keeps a slice of the text, drops only whitespace at both ends, and the result neither starts nor ends with whitespace |
| Text.TrimEndSlashes | src/api/plex.rs:138 | the result is a prefix of the URL, only '/' characters were removed, and it does not end in '/' |
| Text.TrimEndSlashesIdempotent | src/api/plex.rs:138 | trimming trailing slashes twice is trimming once |
| Jackett.ExtractAttr | src/api/jackett.rs:121-128 | a found attribute value is shorter than 200 characters |
| Jackett.ExtractAttrSpec | src/api/jackett.rs:121-128 | a value is found iff `attr="` occurs and a quote follows it within 200 characters; the value is all the text up to that first quote, contains no quote, and is never truncated |
| Jackett.ExtractAttrAbsent | src/api/jackett.rs:122-123 | no needle, no value |
| Jackett.ExtractTagSpec | src/api/jackett.rs:130-137 | element text is found iff the raw span between the first `<tag>` and the next `</tag>` exists and is shorter than 500 characters; the text is that span trimmed |
| Jackett.OccurrencesExact | src/api/jackett.rs:81 | the specification list holds exactly the marker positions from a given offset |
| Jackett.OccurrencesAscending | src/api/jackett.rs:81 | the marker positions are in strictly ascending document order |
| Jackett.ScanStep | src/api/jackett.rs:81-82 | a step of the loop finds the next marker, and skipping its 9 characters loses no later marker |
| Jackett.ScanDone | src/api/jackett.rs:81 | when `find` fails on the remaining text, no marker remains |
| Jackett.CheckWindow | src/api/jackett.rs:112-113 | the test is true exactly when `configured="true"` lies entirely within the 300 characters starting at the marker (fewer at the end of the text) |
| Jackett.WindowContains | src/api/jackett.rs:112-113 | searching the collected 300-character slice agrees, in both directions, with the token occurring at a position of the text inside that window |
| Jackett.CountOne | src/api/jackett.rs:110-116 | one pass of the loop counts the marker it found exactly when its window is configured, and keeps the count equal to the markers counted so far, which followed by the hits still ahead gives all hits of the document |
| Jackett.CountConfiguredIndexers | src/api/jackett.rs:107-119 | the count is the number of markers whose 300-character window contains `configured="true"`, and at most the number of markers |
| Jackett.NoMarkerNoCount | src/api/jackett.rs:107-119 | a document with no marker counts 0 |
| Jackett.RecordDefaults | src/api/jackett.rs:84-91 | configured iff the attribute is exactly "true"; the id defaults to "", the type to "public", and the name to the id |
| Jackett.ListedBounds | src/api/jackett.rs:93-101 | at most one record per marker, and every record listed is configured |
| Jackett.ListedInOrder | src/api/jackett.rs:79-102 | the k-th record is built at the k-th kept marker, and kept markers are in document order |
| Jackett.ScanIndexers | src/api/jackett.rs:79-102 | the loop visits every marker once, in order, and returns exactly the configured records of the specification |
| Jackett.ListIndexers | src/api/jackett.rs:65-105 | a transport error, a non-success status or an unreadable body is returned as an error; otherwise the scanned records |
| Jackett.TorznabTotal | src/api/jackett.rs:18-28 | the indexer total is the configured count when the listing produced text, whatever its status, else 0 |
| Jackett.JackettStatus | src/api/jackett.rs:4-60 | active iff the health check succeeded, with "Running" and the indexer extras; otherwise "HTTP — " and the first 80 characters of the body, or "Connection error: " and the error; never extras when inactive |
| Jackett.JackettStatusBounds | src/api/jackett.rs:47 | a failed check's message is at most 80 characters past its prefix, and the total never exceeds the marker count |
| AppConfig.Extensionality | src/main.rs:20-36 | a configuration is determined by its eight public fields and its seven secrets |
| AppConfig.Mask | src/main.rs:271-286 | public fields unchanged; a set secret reads as "********", an empty one stays empty |
| AppConfig.MaskHidesSecrets | src/main.rs:276-283 | a masked secret is "" or "********", and "" exactly when the stored one is |
| AppConfig.MaskIdempotent | src/main.rs:276-283 | masking a masked configuration changes nothing |
| AppConfig.Merge | src/main.rs:292-303 | a secret sent as "********" keeps the stored value, any other secret (including "") is taken as sent, public fields come from the payload |
| AppConfig.MergeMaskRoundTrip | src/main.rs:276-303 | writing back what was read restores the stored configuration exactly |
| AppConfig.ClearToEmpty | src/main.rs:297-303 | a secret cleared in the form is stored empty |
| AppConfig.SentinelNeverLeaks | src/main.rs:297-303 | a merged secret is "********" only when the stored one was, so a store without the sentinel keeps none |
| AppConfig.MergeStable | src/main.rs:297-303 | applying the same payload twice stores what applying it once did |
| AppConfig.ConfigStore.GetDashboardConfig | src/main.rs:271-286 | the field-by-field rewrite yields the mask of the current configuration and leaves the store alone |
| AppConfig.ConfigStore.UpdateDashboardConfig | src/main.rs:288-310 | the configuration is replaced wholesale by the merge, that same configuration is saved, one audit event is written, the reply is 200, and no sentinel enters a sentinel-free store |
| Dashboard.CallFor | src/main.rs:158-178 | each backend is called with its own URL and its own stored secret (API key, Plex token or torrent password), and only the torrent client gets a user name, the stored one |
| Dashboard.Pick | src/main.rs:158-178 | a backend is included iff its URL is set |
| Dashboard.ConfiguredSpec | src/main.rs:151-181 | a backend is polled iff its URL is set, each at most once, in the order Plex, Sonarr, Radarr, Jackett, Transmission, Jellyfin, Emby |
| Dashboard.ConfiguredCount | src/main.rs:154-180 | the number of statuses equals the number of backends with a URL, at most 7 |
| Dashboard.PollIfSet | src/main.rs:158-160 | one `if` block pushes the adapter's status exactly when the URL is set |
| Dashboard.GetAllStatus | src/main.rs:151-181 | the backends polled are exactly the configured ones in the fixed order, with one status each, each the adapter's answer |
| Dashboard.ServiceOf | src/main.rs:318-325 | only "sonarr", "radarr" and "transmission" name a service |
| Dashboard.Internal | src/main.rs:65-67 | an adapter error becomes a 500 carrying its text |
| Dashboard.GetServiceSettings | src/main.rs:312-327 | an unknown service is a 404 with no call; a known one is one call to that backend with its credentials |
| Dashboard.UpdateServiceSettings | src/main.rs:329-348 | an unknown service is a 404 with no call; on success the reply is 200 and one audit event is written under the service name, on failure a 500 and no event |
| Dashboard.GlobalSearch | src/main.rs:183-212 | an empty term is a 400 before any call; otherwise only the configured managers are searched, each field holds that manager's result, and an unconfigured manager or a failed search reads as null |
| Dashboard.Found | src/main.rs:197-205 | a failed search reads as null |
| Dashboard.SearchBackend | src/main.rs:370-381 | an empty term is a 400 with no call; otherwise exactly one search, its error becoming a 500 |
| Transmission.Endpoint | src/api/transmission.rs:46 | every RPC goes to the URL followed by `/transmission/rpc` |
| Transmission.Post | src/api/transmission.rs:48-51 | basic credentials are attached iff the user name is non-empty |
| Transmission.SessionIdOf | src/api/transmission.rs:56-61 | the retry's session id is the header's value, or "" when the header is absent or not visible ASCII |
| Transmission.RpcServer.Send | src/api/transmission.rs:53 | sending appends the request to the log and returns the server's answer to it |
| Transmission.ExchangeRequests | src/api/transmission.rs:46-79 | one or two requests, never a third, all to the endpoint with the same body and the same credentials, the first without a session id |
| Transmission.HandshakeRetry | src/api/transmission.rs:55-73 | a 409 causes exactly one retry with the session id it handed out, and the retry's body is the result whatever the retry's status |
| Transmission.NoHandshake | src/api/transmission.rs:74-79 | otherwise one request: a success returns its body, any other status "Transmission returned HTTP" and the status |
| Transmission.RpcRequest | src/api/transmission.rs:39-80 | the method returns what the exchange specifies and logs exactly its requests |
| Transmission.SessionGetBody | src/api/transmission.rs:84-86 | the poll asks for `session-get` with no arguments |
| Transmission.TorrentGetBody | src/api/transmission.rs:126-131 | `torrent-get` with the requested fields as arguments |
| Transmission.SessionSetBody | src/api/transmission.rs:178-181 | `session-set` with the given configuration as arguments |
| Transmission.AddTorrentBody | src/api/transmission.rs:214-219 | `torrent-add` with the filename as argument |
| Transmission.ActionBody | src/api/transmission.rs:230-269 | start, stop and remove name their method and the single id; only removal carries the delete flag |
| Transmission.Downloading | src/api/transmission.rs:139-141 | the filter keeps exactly the torrents with status 4 |
| Transmission.DownloadingAppend | src/api/transmission.rs:139-141 | the filter distributes over concatenation, so it keeps list order |
| Transmission.Labels | src/api/transmission.rs:143-149 | one label per torrent, in order |
| Transmission.SummarySpec | src/api/transmission.rs:137-155 | total is the number of torrents, downloading the number with status 4, and the names are the first min(5, downloading) of those, in order |
| Transmission.SummaryIdle | src/api/transmission.rs:139-149 | with nothing downloading, the count is 0 and no name is listed |
| Transmission.ExtrasOf | src/api/transmission.rs:133-161 | exactly `Summary` of the decoded torrent list (total, downloading count, first five labels) iff the RPC succeeded, decoded to the expected shape and has arguments; `{}` otherwise |
| Transmission.FetchExtras | src/api/transmission.rs:125-162 | one full exchange for `torrent-get`, summarised |
| Transmission.StatusOf | src/api/transmission.rs:93-122 | active iff the answer is a success or a 409, then "Running" with the extras; otherwise "HTTP" and the status, or the transport error, and no extras |
| Transmission.GetStatus | src/api/transmission.rs:82-123 | one `session-get` without a session id, followed by the summary exchange only when the client is reachable |
| Transmission.GetConfig | src/api/transmission.rs:164-174 | one request and no handshake; the body is returned whatever the status |
| Transmission.UpdateConfig | src/api/transmission.rs:176-188 | one request; success iff an answer arrived whose status is not a client or server error (not 4xx or 5xx), so a 1xx or 3xx answer also succeeds |
| Plex.SessionLabels | src/api/plex.rs:71-76 | one label per metadata entry, in order |
| Plex.StatusOf | src/api/plex.rs:59-122 | `get_status` is this applied to the answer of the one sessions GET; active iff the status is 2xx; a parsed answer reports `size` sessions with one label per entry (none without metadata); a parse failure is active with "Parse Error: " and no extras; other failures are inactive with no extras |
| Plex.ParsedSessions | src/api/plex.rs:63-94 | a parsed answer always carries extras whose count is `size`, not the number of entries |
| Plex.JsonBody | src/api/plex.rs:140-149 | the helpers get JSON only after a transport success, a 2xx status and a decodable body, else the matching error |
| Plex.Lookup | src/api/plex.rs:150-152 | the nested member when present, otherwise the top-level one |
| Plex.GetServerInfo | src/api/plex.rs:133-163 | the server's id and name from the trimmed URL's answer, or the error |
| Plex.LookupFallbacks | src/api/plex.rs:150-161 | a nested string wins; without a nested member a top-level string is used; else the default ("" or "Plex"), and a nested non-string does not fall back |
| Plex.StrOr | src/api/plex.rs:195-197 | a string member, or the default |
| Plex.Entries | src/api/plex.rs:186-190 | the array at the path, or none |
| Plex.LibraryOf | src/api/plex.rs:192-200 | key "", title "Unknown" and type "unknown" by default, count 0 |
| Plex.CountOf | src/api/plex.rs:208-213 | the count is set only when the request returned and its body is JSON, whatever the status; it is then the 64-bit `MediaContainer.totalSize` when that is present, and 0 otherwise |
| Plex.Counted | src/api/plex.rs:203-215 | a library keeps count 0 unless its count answer was JSON |
| Plex.GetLibraries | src/api/plex.rs:167-218 | one library per directory entry, in order, each with the count its own request gave; the primary error otherwise |
| Plex.WrapI32 | src/api/plex.rs:261 | `as i32` keeps the low 32 bits: the year is in the signed 32-bit range, congruent to the value, and unchanged when it fits |
| Plex.ThumbUrl | src/api/plex.rs:254-257 | the image URL is the base, the path, then the token query |
| Plex.RecentItems | src/api/plex.rs:251-267 | one item per metadata entry, in order |
| Plex.GetRecentlyAdded | src/api/plex.rs:222-268 | the items of the trimmed URL's answer, or the error |
| Plex.RecentThumb | src/api/plex.rs:254-257 | an image exists iff `thumb` or `grandparentThumb` is a string, `thumb` first; it starts with the trimmed base, which does not end in '/' |
| Plex.RecentDefaults | src/api/plex.rs:258-264 | title "Unknown" and type "unknown" by default; the year is present iff the entry's `year` reads as a 64-bit integer, and it is then that number wrapped to 32 bits (always in the `i32` range) |
| Http.SessionsMessage | src/api/plex.rs:68 | the message is the count, readable back as a number, followed by " active session(s)" |
| Http.StatusText | src/api/plex.rs:108 | the rendered status reads back as the status code |
| Emby.Playing | src/api/emby.rs:32-34 | exactly the sessions playing an item are kept |
| Emby.PlayingAppend | src/api/emby.rs:32-34 | the filter keeps session order |
| Emby.SessionLabels | src/api/emby.rs:37-42 | one label per session, in order |
| Emby.StatusOf | src/api/emby.rs:25-81 | `get_status` is this applied to the answer of the one sessions GET; active iff the status is 2xx; a parse failure is active with "Parse Error: " and no extras; version is never set and an inactive status has no extras |
| Emby.ParsedSessions | src/api/emby.rs:31-53 | the count, the message and the names agree: one "item (user)" name per playing session, user defaulting to "Unknown", in session order |
| Emby.IdleNotCounted | src/api/emby.rs:32-36 | sessions that play nothing are not counted |
| Sonarr.MissingOf | src/api/sonarr.rs:64-72 | the missing count is `totalRecords` only when its request succeeded and decoded, else 0 |
| Sonarr.SeriesCountOf | src/api/sonarr.rs:75-83 | the series count is the list length only when its request succeeded and decoded, else 0 |
| Sonarr.ExtrasIndependent | src/api/sonarr.rs:62-89 | each count degrades to 0 on its own and does not depend on the other request |
| Sonarr.StatusOf | src/api/sonarr.rs:17-60 | `get_status` is this applied to the answers of its status, wanted-list and series GETs; a parsed answer is active, "Running", with the version and the extras; a parse failure is active with "Parse Error" and neither; other failures are inactive with neither |
| Sonarr.NoQueryInNumber | src/api/sonarr.rs:120 | a rendered id contains no '?' |
| Sonarr.DeleteUrlInjective | src/api/sonarr.rs:119-123 | for one server and key, the endpoint determines the series id and the delete flag |
| Sonarr.DeleteSeries | src/api/sonarr.rs:119-123 | success iff an answer arrived whose status is not 4xx or 5xx (a 304, say, succeeds); a transport failure is returned as the error |

## Left out

- The HTTP client: sending, header parsing and body decoding. Each
  request's outcome is a parameter, or the answer of the server object.
  Decoding into a typed view (serde) is a decoded value or an unreadable
  body, not JSON parsing.
- Http.StatusText: renders only the numeric code. The client's status
  display also appends a reason phrase ("409 Conflict"), which is not
  modelled.
- Transmission.UpdateConfig and Sonarr.DeleteSeries: the text of the
  error that `error_for_status` produces for a 4xx or 5xx status is not
  modelled; the model's error carries the code instead. Which statuses
  fail (exactly 400 to 599) is modelled.
- Transmission.Torrent: the percentage `(percent_done * 100.0).round()`
  is floating point. A torrent carries the rounded integer as given.
- Counts (`i64` in the source) are unbounded integers; a list cannot be
  long enough for the difference to matter.
- Text is a sequence of characters. The 200-, 500- and 300-character
  limits and the 80-character prefix count characters; Rust slices the
  first two by bytes. The model assumes ASCII listings: on non-ASCII text
  (indexer titles and descriptions are free text) the byte and character
  bounds differ, and the model does not capture that difference.
- JSON numbers are integers only (`Json.JNum`). A float such as `2020.0`
  or `1e3`, for which `as_i64` gives none, cannot be written, so the
  fallbacks Plex's `year`, `addedAt` and `totalSize` take on such input
  are not modelled; out-of-range integers are (`Http.AsI64`).
- Jackett.JackettStatus: takes the two answers directly. The health and
  Torznab URLs (the trimmed base with the key) are not modelled.
- The Radarr and Jellyfin adapters. src/api/radarr.rs and
  src/api/jellyfin.rs are not part of this model, so their statuses are
  the abstract `poll` of the fan-out.
- Web routing, server start-up and logging; the SQLite store (src/db/mod.rs
  is not part of this model). Saving and audit events are recorded as
  sequences on the store object.
- The read-write lock around the configuration. The store is a single
  sequential state.
- The other handlers that pass a call straight through to one adapter:
  calendar, disk space, series, movies and torrent listings, and the add
  handlers. URL percent-encoding of search terms and the date formatting
  of the calendar call are also left out.
- The calendar and library-stats handlers, which follow the same
  null-on-failure pattern as `Dashboard.GlobalSearch`.
- The configuration migration and the load and save routines, which are
  file and database I/O.
