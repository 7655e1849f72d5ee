/** The series manager adapter (src/api/sonarr.rs): the status poll with
    its two best-effort counts, and the endpoint of series deletion. Each
    request's outcome is a parameter. */
module Sonarr {
  import opened Base
  import opened Http

  /** `format!("{}/api/v3/system/status?apikey={}", url, api_key)` */
  function StatusUrl(url: string, key: string): string {
    url + "/api/v3/system/status?apikey=" + key
  }

  function MissingUrl(url: string, key: string): string {
    url + "/api/v3/wanted/missing?apikey=" + key + "&pageSize=1&sortKey=airDateUtc&sortDirection=descending"
  }

  function SeriesUrl(url: string, key: string): string {
    url + "/api/v3/series?apikey=" + key
  }

  /** `Ok(resp) if resp.status().is_success() => resp.json().map(..).unwrap_or(0), _ => 0`
      on the wanted list: its `totalRecords` only when the request succeeded
      and decoded, else 0. */
  function MissingOf(o: Outcome<int>): (n: int)
    ensures PathOf(o) == Parsed ==> n == o.body.value
    ensures PathOf(o) != Parsed ==> n == 0
  {
    if o.Resp? && IsSuccess(o.status) && o.body.Decoded? then o.body.value else 0
  }

  /** The same on the series list: its length, else 0. */
  function SeriesCountOf(o: Outcome<seq<Json>>): (n: nat)
    ensures PathOf(o) == Parsed ==> n == |o.body.value|
    ensures PathOf(o) != Parsed ==> n == 0
  {
    if o.Resp? && IsSuccess(o.status) && o.body.Decoded? then |o.body.value| else 0
  }

  /** `fetch_extras`: the missing-episode count and the number of series. */
  function ExtrasOf(missing: Outcome<int>, series: Outcome<seq<Json>>): (e: Extras)
    ensures e.SeriesExtras?
  {
    SeriesExtras(MissingOf(missing), SeriesCountOf(series))
  }

  /** Each count degrades to 0 on its own: it is the decoded value exactly
      when its own request succeeded and decoded, and it does not depend on
      the other request. */
  lemma ExtrasIndependent(missing: Outcome<int>, series: Outcome<seq<Json>>,
                          missing': Outcome<int>, series': Outcome<seq<Json>>)
    ensures var e := ExtrasOf(missing, series);
      (PathOf(missing) == Parsed ==> e.missingEpisodes == missing.body.value)
      && (PathOf(missing) != Parsed ==> e.missingEpisodes == 0)
      && (PathOf(series) == Parsed ==> e.totalSeries == |series.body.value|)
      && (PathOf(series) != Parsed ==> e.totalSeries == 0)
      && e.missingEpisodes == ExtrasOf(missing, series').missingEpisodes
      && e.totalSeries == ExtrasOf(missing', series).totalSeries
  {
  }

  /** The status record: the poll's answer carries the version; the two
      counts are fetched only after a parsed answer. */
  function StatusOf(first: Outcome<string>, missing: Outcome<int>, series: Outcome<seq<Json>>): (st: ServiceStatus)
    ensures st.name == "Sonarr" && WellFormed(st)
    ensures st.active <==> first.Resp? && IsSuccess(first.status)
    ensures st.version.Some? <==> PathOf(first) == Parsed
    ensures st.extras.Some? <==> PathOf(first) == Parsed
    ensures PathOf(first) == Parsed ==>
      st.message == "Running" && st.version == Some(first.body.value) && st.extras == Some(ExtrasOf(missing, series))
    ensures PathOf(first) == ParseFailed ==> st.message == "Parse Error"
    ensures first.TransportErr? ==> st.message == first.error
    ensures first.Resp? && !IsSuccess(first.status) ==> st.message == "HTTP " + StatusText(first.status)
  {
    match first
    case TransportErr(e) => ServiceStatus("Sonarr", false, e, None, None)
    case Resp(status, _, body) =>
      if !IsSuccess(status) then ServiceStatus("Sonarr", false, "HTTP " + StatusText(status), None, None)
      else match body
        case Undecodable(_) => ServiceStatus("Sonarr", true, "Parse Error", None, None)
        case Decoded(version) => ServiceStatus("Sonarr", true, "Running", Some(version), Some(ExtrasOf(missing, series)))
  }

  /** `get_status`: the three GETs, the last two only after a parsed answer
      (their outcomes are then irrelevant otherwise). */
  function GetStatus(url: string, key: string, getStatus: string -> Outcome<string>,
                     getWanted: string -> Outcome<int>, getSeries: string -> Outcome<seq<Json>>): (st: ServiceStatus)
  {
    StatusOf(getStatus(StatusUrl(url, key)), getWanted(MissingUrl(url, key)), getSeries(SeriesUrl(url, key)))
  }

  // ---------------------------------------------------------------------
  // delete_series

  /** `format!("{}", delete_files)` */
  function BoolText(b: bool): string {
    if b then "true" else "false"
  }

  /** The query of the deletion endpoint: the key and the `deleteFiles` flag. */
  function DeleteQuery(key: string, deleteFiles: bool): (r: string)
    ensures |r| > 0 && r[0] == '?'
  {
    "?apikey=" + key + "&deleteFiles=" + BoolText(deleteFiles)
  }

  /** The deletion endpoint: the series id, then the query. */
  function DeleteUrl(url: string, key: string, id: int, deleteFiles: bool): string {
    url + "/api/v3/series/" + (IntToString(id) + DeleteQuery(key, deleteFiles))
  }

  lemma NoQueryInNumber(i: int)
    ensures '?' !in IntToString(i)
  {
    IntToStringChars(i);
  }

  /** In a '?'-free part followed by a text starting with '?', the first
      '?' sits right after the part. */
  lemma QueryAt(a: string, t: string)
    requires '?' !in a && |t| > 0 && t[0] == '?'
    ensures (a + t)[|a|] == '?' && forall k :: 0 <= k < |a| ==> (a + t)[k] != '?'
  {
    forall k | 0 <= k < |a| ensures (a + t)[k] != '?' {
      assert (a + t)[k] == a[k] && a[k] in a;
    }
  }

  /** Two texts that each start with a '?'-free part followed by a '?'
      split the same way when they are equal. */
  lemma SplitAtQuery(a: string, t1: string, b: string, t2: string)
    requires a + t1 == b + t2
    requires '?' !in a && '?' !in b
    requires |t1| > 0 && t1[0] == '?' && |t2| > 0 && t2[0] == '?'
    ensures a == b && t1 == t2
  {
    QueryAt(a, t1);
    QueryAt(b, t2);
    assert |a| == |b|;
    assert a == (a + t1)[..|a|] && b == (b + t2)[..|b|];
    assert t1 == (a + t1)[|a|..] && t2 == (b + t2)[|b|..];
  }

  /** The endpoint determines the deletion: for the same server and key,
      two requests that differ in the id or the flag go to different URLs. */
  lemma DeleteUrlInjective(url: string, key: string, id1: int, f1: bool, id2: int, f2: bool)
    requires DeleteUrl(url, key, id1, f1) == DeleteUrl(url, key, id2, f2)
    ensures id1 == id2 && f1 == f2
  {
    var prefix := url + "/api/v3/series/";
    var s1 := IntToString(id1) + DeleteQuery(key, f1);
    var s2 := IntToString(id2) + DeleteQuery(key, f2);
    assert s1 == s2 by {
      assert s1 == (prefix + s1)[|prefix|..];
      assert s2 == (prefix + s2)[|prefix|..];
    }
    NoQueryInNumber(id1);
    NoQueryInNumber(id2);
    SplitAtQuery(IntToString(id1), DeleteQuery(key, f1), IntToString(id2), DeleteQuery(key, f2));
    IntToStringInjective(id1, id2);
    var q := "?apikey=" + key + "&deleteFiles=";
    assert BoolText(f1) == DeleteQuery(key, f1)[|q|..];
    assert BoolText(f2) == DeleteQuery(key, f2)[|q|..];
  }

  /** `delete_series`: one DELETE; `error_for_status` turns a 4xx or 5xx
      status into an error, and a transport failure is one too. */
  function DeleteSeries(url: string, key: string, id: int, deleteFiles: bool, send: string -> Outcome<()>)
    : (r: Result<()>)
    ensures var o := send(DeleteUrl(url, key, id, deleteFiles));
      (r.Ok? <==> o.Resp? && !IsErrorStatus(o.status)) && (o.TransportErr? ==> r == Err(o.error))
  {
    match send(DeleteUrl(url, key, id, deleteFiles))
    case TransportErr(e) => Err(e)
    case Resp(status, _, _) => if IsErrorStatus(status) then Err("HTTP " + StatusText(status)) else Ok(())
  }
}
