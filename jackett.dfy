/** The indexer-proxy adapter (src/api/jackett.rs): a literal-string scanner
    over the Torznab `t=indexers` XML document, with no XML parser, and the
    health-check status mapping. */
module Jackett {
  import opened Base
  import opened Text
  import opened Http

  /** The literal that opens every indexer element. */
  const Marker: string := "<indexer "
  /** The token the cheap counting pass looks for. */
  const ConfiguredTrue: string := "configured=\"true\""
  /** How many characters after a marker the counting pass inspects. */
  const WindowSize: nat := 300
  /** Attribute values must end before this many characters. */
  const MaxAttrLen: nat := 200
  /** Element text must end before this many characters. */
  const MaxTagLen: nat := 500

  // ---------------------------------------------------------------------
  // Extractors

  /** A one-character needle occurs exactly where that character is. */
  lemma CharAt(t: string, c: char, j: nat)
    ensures IsAt(t, [c], j) <==> j < |t| && t[j] == c
  {
    if j < |t| {
      assert t[j..j + 1] == [t[j]];
    }
  }

  /** The text that follows the first occurrence of `needle`, if any. */
  function AfterFirst(s: string, needle: string): Option<string> {
    match Find(s, needle)
    case None => None
    case Some(i) => Some(s[i + |needle|..])
  }

  function AttrNeedle(attr: string): string { attr + "=\"" }

  /** `extract_attr`: the text between the first `attr="` anywhere in `s`
      and the next `"` after it, provided that text is shorter than 200
      characters; otherwise absent. */
  function ExtractAttr(s: string, attr: string): (r: Option<string>)
    ensures r.Some? ==> |r.value| < MaxAttrLen
  {
    var needle := AttrNeedle(attr);
    match Find(s, needle)
    case None => None
    case Some(i) =>
      var rest := s[i + |needle|..];
      match Find(rest, "\"")
      case None => None
      case Some(end) => if end < MaxAttrLen then Some(rest[..end]) else None
  }

  /** An attribute is found exactly when its needle occurs and a closing
      quote follows within 200 characters; the value found is the whole text
      up to that quote (it contains no quote and the quote follows it), so a
      value is never cut short. */
  lemma ExtractAttrSpec(s: string, attr: string)
    ensures var rest := AfterFirst(s, AttrNeedle(attr)); var r := ExtractAttr(s, attr);
      (r.Some? <==> rest.Some? && exists k :: 0 <= k < |rest.value| && k < MaxAttrLen && rest.value[k] == '"')
      && (r.Some? ==> '"' !in r.value && IsAt(rest.value, r.value + "\"", 0))
  {
    var needle := AttrNeedle(attr);
    if Find(s, needle).Some? {
      var rest := AfterFirst(s, needle).value;
      FindSpec(rest, "\"");
      match Find(rest, "\"")
      case None =>
        forall k | 0 <= k < |rest| ensures rest[k] != '"' { CharAt(rest, '"', k); }
      case Some(end) =>
        CharAt(rest, '"', end);
        forall k | 0 <= k < end ensures rest[k] != '"' { CharAt(rest, '"', k); }
        assert rest[..end + 1] == rest[..end] + "\"";
    }
  }

  /** The needle absent means the attribute is absent. */
  lemma ExtractAttrAbsent(s: string, attr: string)
    requires !Contains(s, AttrNeedle(attr))
    ensures ExtractAttr(s, attr).None?
  {
  }

  function OpenTag(tag: string): string { "<" + tag + ">" }
  function CloseTag(tag: string): string { "</" + tag + ">" }

  /** `raw` runs from the start of `rest` up to the first `close` in it. */
  predicate SpanIn(rest: string, close: string, raw: string) {
    |raw| <= |rest| && raw == rest[..|raw|] && IsAt(rest, close, |raw|)
    && forall j: nat :: j < |raw| ==> !IsAt(rest, close, j)
  }

  /** The raw text of the first `tag` element: everything between the first
      `<tag>` and the first `</tag>` after it. */
  predicate RawSpan(s: string, tag: string, raw: string) {
    AfterFirst(s, OpenTag(tag)).Some? && SpanIn(AfterFirst(s, OpenTag(tag)).value, CloseTag(tag), raw)
  }

  /** `extract_tag`: the trimmed text of the first `tag` element, provided
      its untrimmed text is shorter than 500 characters; otherwise absent. */
  function ExtractTag(s: string, tag: string): Option<string> {
    match AfterFirst(s, OpenTag(tag))
    case None => None
    case Some(rest) =>
      match Find(rest, CloseTag(tag))
      case None => None
      case Some(end) => if end < MaxTagLen then Some(Trim(rest[..end])) else None
  }

  /** The span up to the first `close` is the one `find` reports, and there
      is none when `find` finds nothing. */
  lemma SpanInSpec(rest: string, close: string)
    ensures Find(rest, close).None? ==> forall raw :: !SpanIn(rest, close, raw)
    ensures Find(rest, close).Some? ==>
      var end := Find(rest, close).value;
      SpanIn(rest, close, rest[..end]) && forall raw :: SpanIn(rest, close, raw) ==> raw == rest[..end]
  {
    FindSpec(rest, close);
    match Find(rest, close)
    case None =>
    case Some(end) =>
      forall raw | SpanIn(rest, close, raw) ensures raw == rest[..end] {
        assert IsAt(rest, close, |raw|) && IsAt(rest, close, end);
      }
  }

  /** An element's text is found exactly when its raw span exists and is
      shorter than 500 characters, and it is that span trimmed. */
  lemma ExtractTagSpec(s: string, tag: string)
    ensures ExtractTag(s, tag).Some? <==> exists raw :: RawSpan(s, tag, raw) && |raw| < MaxTagLen
    ensures ExtractTag(s, tag).Some? ==>
      exists raw :: RawSpan(s, tag, raw) && |raw| < MaxTagLen && ExtractTag(s, tag).value == Trim(raw)
  {
    match AfterFirst(s, OpenTag(tag))
    case None =>
    case Some(rest) =>
      SpanInSpec(rest, CloseTag(tag));
      match Find(rest, CloseTag(tag))
      case None =>
      case Some(end) =>
        assert RawSpan(s, tag, rest[..end]);
  }

  // ---------------------------------------------------------------------
  // Where the markers are

  /** Every position at or after `from` where the marker occurs, ascending.
      This is the reference the two scanning loops are proved against. */
  function Occurrences(s: string, from: nat): seq<nat>
    decreases |s| - from
  {
    if from + |Marker| > |s| then []
    else (if IsAt(s, Marker, from) then [from] else []) + Occurrences(s, from + 1)
  }

  /** `Occurrences` holds exactly the marker positions at or after `from`. */
  lemma {:induction false} OccurrencesExact(s: string, from: nat)
    ensures forall p :: p in Occurrences(s, from) <==> from <= p && IsAt(s, Marker, p)
    decreases |s| - from
  {
    if from + |Marker| <= |s| {
      OccurrencesExact(s, from + 1);
    }
  }

  predicate Ascending(r: seq<nat>) {
    forall i, j :: 0 <= i < j < |r| ==> r[i] < r[j]
  }

  /** ... and lists them in strictly ascending (document) order. */
  lemma {:induction false} OccurrencesAscending(s: string, from: nat)
    ensures Ascending(Occurrences(s, from))
    decreases |s| - from
  {
    if from + |Marker| <= |s| {
      OccurrencesAscending(s, from + 1);
      OccurrencesExact(s, from + 1);
      var tail := Occurrences(s, from + 1);
      forall k | 0 <= k < |tail| ensures from < tail[k] {
        assert tail[k] in tail;
      }
      if IsAt(s, Marker, from) {
        PrependAscending(from, tail);
        assert Occurrences(s, from) == [from] + tail;
      } else {
        assert Occurrences(s, from) == [] + tail == tail;
      }
    }
  }

  lemma {:induction false} SkipFree(s: string, i: nat, j: nat)
    requires i <= j
    requires forall p: nat :: i <= p < j ==> !IsAt(s, Marker, p)
    ensures Occurrences(s, i) == Occurrences(s, j)
    decreases j - i
  {
    if i < j && i + |Marker| <= |s| {
      SkipFree(s, i + 1, j);
    }
  }

  /** No occurrence of the marker starts inside another one: only its first
      character is `<`. */
  lemma MarkerNoSelfOverlap(s: string, p: nat, q: nat)
    requires IsAt(s, Marker, p) && p < q < p + |Marker|
    ensures !IsAt(s, Marker, q)
  {
    assert s[q] == Marker[q - p];
  }

  /** When no marker is left in the unsearched text `s[off..]`, no
      occurrence remains. */
  lemma ScanDone(s: string, off: nat)
    requires off <= |s| && Find(s[off..], Marker).None?
    ensures Occurrences(s, off) == []
  {
    var occ := Occurrences(s, off);
    OccurrencesExact(s, off);
    FindSpec(s[off..], Marker);
    if occ != [] {
      assert occ[0] in occ;
      IsAtSuffix(s, Marker, off, occ[0] - off);
      assert false;
    }
  }

  /** One step of `while let Some(pos) = search.find("<indexer ")`: with the
      unsearched text starting at `off`, the marker found is the first
      remaining occurrence, and skipping its 9 characters leaves exactly the
      later occurrences. */
  lemma ScanStep(s: string, off: nat, pos: nat)
    requires off <= |s| && Find(s[off..], Marker) == Some(pos)
    ensures off + pos + |Marker| <= |s|
    ensures Occurrences(s, off) == [off + pos] + Occurrences(s, off + pos + |Marker|)
  {
    NoneBefore(s, Marker, off, pos);
    StepFrom(s, off, off + pos);
  }

  /** From `off`, when the first marker is at `p`, the occurrences are `p`
      and then those after its 9 characters. */
  lemma StepFrom(s: string, off: nat, p: nat)
    requires off <= p && IsAt(s, Marker, p)
    requires forall q: nat :: off <= q < p ==> !IsAt(s, Marker, q)
    ensures Occurrences(s, off) == [p] + Occurrences(s, p + |Marker|)
  {
    SkipFree(s, off, p);
    PastMarker(s, p);
  }

  /** Nothing before the marker `find` reports is an occurrence. */
  /** What `find` reports in a suffix, read in the whole text: an
      occurrence, and none between the suffix's start and it. */
  lemma NoneBefore(s: string, needle: string, off: nat, pos: nat)
    requires off <= |s| && Find(s[off..], needle) == Some(pos)
    ensures IsAt(s, needle, off + pos)
    ensures forall q: nat :: off <= q < off + pos ==> !IsAt(s, needle, q)
  {
    FindSpec(s[off..], needle);
    IsAtSuffix(s, needle, off, pos);
    forall q: nat | off <= q < off + pos ensures !IsAt(s, needle, q) {
      IsAtSuffix(s, needle, off, q - off);
    }
  }

  /** The occurrences from a marker are that marker and then those after
      its 9 characters. */
  lemma PastMarker(s: string, p: nat)
    requires IsAt(s, Marker, p)
    ensures Occurrences(s, p) == [p] + Occurrences(s, p + |Marker|)
  {
    forall q: nat | p + 1 <= q < p + |Marker| ensures !IsAt(s, Marker, q) {
      MarkerNoSelfOverlap(s, p, q);
    }
    SkipFree(s, p + 1, p + |Marker|);
  }

  // ---------------------------------------------------------------------
  // count_configured_indexers

  /** The (at most) 300 characters starting at position `p`. */
  function Window(s: string, p: nat): string {
    if p <= |s| then Take(s[p..], WindowSize) else []
  }

  /** `configured="true"` occurs entirely within the 300 characters
      starting at `p`. */
  predicate WindowConfigured(s: string, p: nat) {
    exists j: nat :: p <= j < p + WindowSize && j + |ConfiguredTrue| <= p + WindowSize && IsAt(s, ConfiguredTrue, j)
  }

  /** The window test reads the same in the unsearched suffix. */
  lemma WindowShift(s: string, off: nat, p: nat)
    requires off <= |s|
    ensures WindowConfigured(s[off..], p) <==> WindowConfigured(s, off + p)
  {
    if WindowConfigured(s[off..], p) {
      var j: nat :| p <= j < p + WindowSize && j + |ConfiguredTrue| <= p + WindowSize && IsAt(s[off..], ConfiguredTrue, j);
      IsAtSuffix(s, ConfiguredTrue, off, j);
    }
    if WindowConfigured(s, off + p) {
      var j: nat :| off + p <= j < off + p + WindowSize && j + |ConfiguredTrue| <= off + p + WindowSize
        && IsAt(s, ConfiguredTrue, j);
      IsAtSuffix(s, ConfiguredTrue, off, j - off);
    }
  }

  /** `tag_slice.contains("configured=\"true\"")` is the window test. */
  lemma WindowContains(s: string, p: nat)
    requires p <= |s|
    ensures Contains(Window(s, p), ConfiguredTrue) <==> WindowConfigured(s, p)
  {
    var w := Window(s, p);
    ContainsIff(w, ConfiguredTrue);
    forall j: nat ensures IsAt(w, ConfiguredTrue, j) <==> j + |ConfiguredTrue| <= |w| && IsAt(s, ConfiguredTrue, p + j) {
      IsAtSuffix(s, ConfiguredTrue, p, j);
      if j + |ConfiguredTrue| <= |w| {
        IsAtPrefix(s[p..], w, ConfiguredTrue, j);
      }
    }
    if WindowConfigured(s, p) {
      var j: nat :| p <= j < p + WindowSize && j + |ConfiguredTrue| <= p + WindowSize && IsAt(s, ConfiguredTrue, j);
      assert IsAt(w, ConfiguredTrue, j - p);
    }
    if Contains(w, ConfiguredTrue) {
      var j: nat :| IsAt(w, ConfiguredTrue, j);
      assert IsAt(s, ConfiguredTrue, p + j);
    }
  }

  /** The positions among `ps` whose window contains `configured="true"`, in order. */
  function Hits(s: string, ps: seq<nat>): (r: seq<nat>)
    ensures |r| <= |ps|
  {
    if ps == [] then []
    else (if WindowConfigured(s, ps[0]) then [ps[0]] else []) + Hits(s, ps[1..])
  }

  /** How many of the positions `ps` have `configured="true"` in their window. */
  function CountConfigured(s: string, ps: seq<nat>): (n: nat)
    ensures n <= |ps|
  {
    |Hits(s, ps)|
  }

  /** The hits of a list with head `p`: the head if its window is
      configured, then the hits of the rest. */
  lemma HitsCons(s: string, ps: seq<nat>, p: nat, later: seq<nat>, hit: bool)
    requires ps == [p] + later
    requires hit == WindowConfigured(s, p)
    ensures Hits(s, ps) == (if hit then [p] else []) + Hits(s, later)
  {
    assert ps[1..] == later;
  }

  /** One step of the counting loop: the hits from the unsearched text on
      are the hit at the next marker, if any, and then the later ones. */
  lemma HitsStep(xml: string, off: nat, pos: nat, hit: bool)
    requires off <= |xml| && Find(xml[off..], Marker) == Some(pos)
    requires hit == WindowConfigured(xml[off..], pos)
    ensures off + pos + |Marker| <= |xml|
    ensures xml[off..][pos + |Marker|..] == xml[off + pos + |Marker|..]
    ensures Hits(xml, Occurrences(xml, off))
      == (if hit then [off + pos] else []) + Hits(xml, Occurrences(xml, off + pos + |Marker|))
  {
    ScanStep(xml, off, pos);
    WindowShift(xml, off, pos);
    HitsCons(xml, Occurrences(xml, off), off + pos, Occurrences(xml, off + pos + |Marker|), hit);
  }

  /** The test on one marker: the 300 characters from `pos` (fewer at the
      end of the text) contain `configured="true"`. */
  method CheckWindow(search: string, pos: nat) returns (hit: bool)
    requires pos <= |search|
    ensures hit == WindowConfigured(search, pos)
  {
    var tagSlice := Take(search[pos..], WindowSize);
    hit := Contains(tagSlice, ConfiguredTrue);
    WindowContains(search, pos);
  }

  /** One pass of the counting loop: test the window at the marker found at
      `pos` and count it when `configured="true"` is inside. The ghost
      `hits` records which markers were counted so far. */
  method CountOne(ghost xml: string, search: string, ghost off: nat, pos: nat,
                  count: nat, ghost hits: seq<nat>, ghost whole: seq<nat>)
    returns (count': nat, ghost hits': seq<nat>)
    requires off <= |xml| && search == xml[off..] && Find(search, Marker) == Some(pos)
    requires count == |hits| && hits + Hits(xml, Occurrences(xml, off)) == whole
    ensures count' == if WindowConfigured(search, pos) then count + 1 else count
    ensures pos + |Marker| <= |search| && search[pos + |Marker|..] == xml[off + pos + |Marker|..]
    ensures count' == |hits'| && hits' + Hits(xml, Occurrences(xml, off + pos + |Marker|)) == whole
  {
    var hit := CheckWindow(search, pos);
    count' := if hit then count + 1 else count;
    hits' := if hit then hits + [off + pos] else hits;
    CountAdvance(xml, off, pos, hit, hits, whole, hits');
  }

  /** The account `hits + Hits(later markers) == whole` survives one
      marker, counted or not. */
  lemma CountAdvance(xml: string, off: nat, pos: nat, hit: bool, hits: seq<nat>, whole: seq<nat>, hits': seq<nat>)
    requires off <= |xml| && Find(xml[off..], Marker) == Some(pos)
    requires hit == WindowConfigured(xml[off..], pos)
    requires hits + Hits(xml, Occurrences(xml, off)) == whole
    requires hits' == if hit then hits + [off + pos] else hits
    ensures off + pos + |Marker| <= |xml|
    ensures xml[off..][pos + |Marker|..] == xml[off + pos + |Marker|..]
    ensures hits' + Hits(xml, Occurrences(xml, off + pos + |Marker|)) == whole
  {
    HitsStep(xml, off, pos, hit);
    KeepStep(hits, off + pos, hit, Hits(xml, Occurrences(xml, off)),
      Hits(xml, Occurrences(xml, off + pos + |Marker|)), whole, hits');
  }

  /** `count_configured_indexers`: one count per marker occurrence whose
      300-character window contains `configured="true"`. */
  method CountConfiguredIndexers(xml: string) returns (count: nat)
    ensures count == CountConfigured(xml, Occurrences(xml, 0))
    ensures count <= |Occurrences(xml, 0)|
  {
    count := 0;
    ghost var hits: seq<nat> := [];
    ghost var whole := Hits(xml, Occurrences(xml, 0));
    var search := xml;
    ghost var off: nat := 0;
    var found := Find(search, Marker);
    while found.Some?
      invariant off <= |xml| && search == xml[off..]
      invariant found == Find(search, Marker)
      invariant count == |hits|
      invariant hits + Hits(xml, Occurrences(xml, off)) == whole
      decreases |search|
    {
      var pos := found.value;
      count, hits := CountOne(xml, search, off, pos, count, hits, whole);
      search := search[pos + |Marker|..];
      off := off + pos + |Marker|;
      found := Find(search, Marker);
    }
    ScanDone(xml, off);
  }

  /** A document without any marker counts zero indexers. */
  lemma NoMarkerNoCount(xml: string)
    requires !Contains(xml, Marker)
    ensures CountConfigured(xml, Occurrences(xml, 0)) == 0
  {
    assert xml[0..] == xml;
    ScanDone(xml, 0);
  }

  // ---------------------------------------------------------------------
  // list_indexers

  datatype IndexerRecord = IndexerRecord(id: string, name: string, itype: string, configured: bool)

  /** The text after the marker at `p` (`&remaining[start + 9..]`): the whole
      rest of the document, not just the indexer's own element. */
  function After(s: string, p: nat): string {
    if p + |Marker| <= |s| then s[p + |Marker|..] else []
  }

  /** The record built from the text after one marker, with its defaults. */
  function RecordOf(rest: string): IndexerRecord {
    var id := ExtractAttr(rest, "id").GetOr("");
    var itype := ExtractAttr(rest, "type").GetOr("public");
    var name := ExtractTag(rest, "title").GetOr(id);
    var configured := ExtractAttr(rest, "configured").Some? && ExtractAttr(rest, "configured").value == "true";
    IndexerRecord(id, name, itype, configured)
  }

  /** The per-record defaults: no `id="` gives the empty id, no `type="`
      gives "public", no `<title>` makes the name the id, and only a
      `configured` value of exactly "true" marks the record configured. */
  lemma RecordDefaults(rest: string)
    ensures var r := RecordOf(rest);
      (r.configured <==> ExtractAttr(rest, "configured") == Some("true"))
      && (!Contains(rest, AttrNeedle("id")) ==> r.id == "")
      && (!Contains(rest, AttrNeedle("type")) ==> r.itype == "public")
      && (!Contains(rest, OpenTag("title")) ==> r.name == r.id)
  {
  }

  /** The records built at the positions `ps`, keeping only configured ones. */
  function Listed(s: string, ps: seq<nat>): seq<IndexerRecord> {
    if ps == [] then []
    else
      var rec := RecordOf(After(s, ps[0]));
      (if rec.configured then [rec] else []) + Listed(s, ps[1..])
  }

  /** At most one record per position, and every record is configured. */
  lemma {:induction false} ListedBounds(s: string, ps: seq<nat>)
    ensures |Listed(s, ps)| <= |ps|
    ensures forall k :: 0 <= k < |Listed(s, ps)| ==> Listed(s, ps)[k].configured
  {
    if ps != [] {
      ListedBounds(s, ps[1..]);
    }
  }

  lemma ListedCons(s: string, ps: seq<nat>, p: nat, later: seq<nat>, record: IndexerRecord)
    requires ps == [p] + later
    requires record == RecordOf(After(s, p))
    ensures Listed(s, ps) == (if record.configured then [record] else []) + Listed(s, later)
  {
    assert ps[1..] == later;
  }

  /** The records of the occurrences from `off` on, when the next marker
      is `pos` characters into `xml[off..]`: that marker's record (if
      configured) and then the records of the later occurrences. */
  lemma ListedStep(xml: string, off: nat, pos: nat, record: IndexerRecord)
    requires off <= |xml| && Find(xml[off..], Marker) == Some(pos)
    requires record == RecordOf(After(xml, off + pos))
    ensures Listed(xml, Occurrences(xml, off)) ==
      (if record.configured then [record] else [])
      + Listed(xml, Occurrences(xml, off + pos + |Marker|))
  {
    ScanStep(xml, off, pos);
    ListedCons(xml, Occurrences(xml, off), off + pos, Occurrences(xml, off + pos + |Marker|), record);
  }

  /** The text after a marker found in the unsearched suffix `xml[off..]`
      is the text after that marker in the whole document. */
  lemma AfterSuffix(xml: string, off: nat, pos: nat)
    requires off <= |xml| && pos + |Marker| <= |xml[off..]|
    ensures xml[off..][pos + |Marker|..] == After(xml, off + pos)
  {
  }

  /** Appending a kept item to the gathered ones preserves the loop's
      account of the whole list. */
  lemma KeepStep<T>(acc: seq<T>, x: T, keep: bool, rest: seq<T>, later: seq<T>, whole: seq<T>, acc': seq<T>)
    requires acc + rest == whole
    requires rest == (if keep then [x] else []) + later
    requires acc' == if keep then acc + [x] else acc
    ensures acc' + later == whole
  {
    if keep {
      assert acc + ([x] + later) == (acc + [x]) + later;
    } else {
      assert [] + later == later;
    }
  }

  /** The positions among `ps` whose records are kept. */
  function KeptPositions(s: string, ps: seq<nat>): seq<nat> {
    if ps == [] then []
    else (if RecordOf(After(s, ps[0])).configured then [ps[0]] else []) + KeptPositions(s, ps[1..])
  }

  /** The listed records appear in the order of their markers: the k-th record
      is built at the k-th kept position, and kept positions keep the order
      of `ps`. */
  lemma {:induction false} ListedInOrder(s: string, ps: seq<nat>)
    requires Ascending(ps)
    ensures var qs, r := KeptPositions(s, ps), Listed(s, ps);
      |qs| == |r|
      && (forall k :: 0 <= k < |qs| ==> qs[k] in ps && r[k] == RecordOf(After(s, qs[k])))
      && Ascending(qs)
  {
    if ps != [] {
      var rest := ps[1..];
      assert Ascending(rest) by {
        forall i, j | 0 <= i < j < |rest| ensures rest[i] < rest[j] {
          assert rest[i] == ps[i + 1] && rest[j] == ps[j + 1];
        }
      }
      ListedInOrder(s, rest);
      var tail := KeptPositions(s, rest);
      forall k | 0 <= k < |tail| ensures ps[0] < tail[k] && tail[k] in ps {
        var m :| 0 <= m < |rest| && rest[m] == tail[k];
        assert ps[m + 1] == tail[k];
      }
      var rec := RecordOf(After(s, ps[0]));
      if rec.configured {
        assert KeptPositions(s, ps) == [ps[0]] + tail;
        assert Listed(s, ps) == [rec] + Listed(s, rest);
        PrependAscending(ps[0], tail);
      } else {
        assert KeptPositions(s, ps) == [] + tail;
        assert Listed(s, ps) == [] + Listed(s, rest);
      }
    }
  }

  /** A position below every later one keeps the order when put first. */
  lemma PrependAscending(p: nat, tail: seq<nat>)
    requires Ascending(tail) && forall k :: 0 <= k < |tail| ==> p < tail[k]
    ensures Ascending([p] + tail)
  {
    var r := [p] + tail;
    forall i, j | 0 <= i < j < |r| ensures r[i] < r[j] {
      assert r[j] == tail[j - 1];
      if i > 0 { assert r[i] == tail[i - 1]; }
    }
  }

  /** The scan loop of `list_indexers`: walk the markers in document order,
      advancing past each one, and keep the configured records. */
  method ScanIndexers(xml: string) returns (indexers: seq<IndexerRecord>)
    ensures indexers == Listed(xml, Occurrences(xml, 0))
    ensures |indexers| <= |Occurrences(xml, 0)|
    ensures forall k :: 0 <= k < |indexers| ==> indexers[k].configured
  {
    indexers := [];
    ghost var whole := Listed(xml, Occurrences(xml, 0));
    var remaining := xml;
    ghost var off: nat := 0;
    var found := Find(remaining, Marker);
    while found.Some?
      invariant off <= |xml| && remaining == xml[off..]
      invariant found == Find(remaining, Marker)
      invariant indexers + Listed(xml, Occurrences(xml, off)) == whole
      decreases |remaining|
    {
      var start := found.value;
      ScanStep(xml, off, start);
      AfterSuffix(xml, off, start);
      remaining := remaining[start + |Marker|..];
      // id, type, title and configured, each searched in the rest of the document
      var record := RecordOf(remaining);
      ListedStep(xml, off, start, record);
      ghost var later := Listed(xml, Occurrences(xml, off + start + |Marker|));
      var kept := if record.configured then indexers + [record] else indexers;
      KeepStep(indexers, record, record.configured, Listed(xml, Occurrences(xml, off)), later, whole, kept);
      indexers := kept;
      off := off + start + |Marker|;
      found := Find(remaining, Marker);
    }
    ScanDone(xml, off);
    ListedBounds(xml, Occurrences(xml, 0));
  }

  /** `list_indexers`: the Torznab listing mapped to records, or the error
      that `?` propagates. */
  method ListIndexers(resp: Outcome<string>) returns (r: Result<seq<IndexerRecord>>)
    ensures resp.TransportErr? ==> r == Err(resp.error)
    ensures resp.Resp? && !IsSuccess(resp.status) ==>
      r == Err("Jackett returned HTTP " + StatusText(resp.status))
    ensures resp.Resp? && IsSuccess(resp.status) && resp.body.Undecodable? ==> r == Err(resp.body.reason)
    ensures resp.Resp? && IsSuccess(resp.status) && resp.body.Decoded? ==>
      r == Ok(Listed(resp.body.value, Occurrences(resp.body.value, 0)))
  {
    match resp
    case TransportErr(e) => r := Err(e);
    case Resp(status, _, body) =>
      if !IsSuccess(status) {
        r := Err("Jackett returned HTTP " + StatusText(status));
      } else if body.Undecodable? {
        r := Err(body.reason);
      } else {
        var indexers := ScanIndexers(body.value);
        r := Ok(indexers);
      }
  }

  // ---------------------------------------------------------------------
  // get_status

  /** The indexer total the health check reports: the configured count of
      the Torznab document when the second call produced text (its HTTP
      status is not looked at), and 0 otherwise. */
  function TorznabTotal(torznab: Outcome<string>): (n: nat)
    ensures torznab.TransportErr? || (torznab.Resp? && torznab.body.Undecodable?) ==> n == 0
    ensures torznab.Resp? && torznab.body.Decoded? ==>
      n == CountConfigured(torznab.body.value, Occurrences(torznab.body.value, 0))
  {
    match torznab
    case Resp(_, _, Decoded(xml)) => CountConfigured(xml, Occurrences(xml, 0))
    case _ => 0
  }

  /** The body text a failed health check reports (`unwrap_or_default`). */
  function BodyText(b: Body<string>): string {
    if b.Decoded? then b.value else ""
  }

  /** `get_status`: the search endpoint decides liveness; the Torznab
      listing only feeds the indexer total. */
  function JackettStatus(health: Outcome<string>, torznab: Outcome<string>): (st: ServiceStatus)
    ensures st.name == "Jackett" && st.version.None? && WellFormed(st)
    ensures st.active <==> health.Resp? && IsSuccess(health.status)
    ensures st.active ==> (st.message == "Running"
      && st.extras == Some(IndexerExtras(TorznabTotal(torznab), 0, [])))
    ensures health.Resp? && !IsSuccess(health.status) ==>
      st.message == "HTTP \U{2014} " + Take(BodyText(health.body), 80)
    ensures health.TransportErr? ==> st.message == "Connection error: " + health.error
  {
    match health
    case Resp(status, _, body) =>
      if IsSuccess(status) then
        ServiceStatus("Jackett", true, "Running", None, Some(IndexerExtras(TorznabTotal(torznab), 0, [])))
      else
        ServiceStatus("Jackett", false, "HTTP \U{2014} " + Take(BodyText(body), 80), None, None)
    case TransportErr(e) =>
      ServiceStatus("Jackett", false, "Connection error: " + e, None, None)
  }

  /** A failed health check reports at most 80 characters of the body, and
      the indexer total never exceeds the number of markers. */
  lemma JackettStatusBounds(health: Outcome<string>, torznab: Outcome<string>)
    ensures var st := JackettStatus(health, torznab);
      (health.Resp? && !IsSuccess(health.status) ==> |st.message| <= |"HTTP \U{2014} "| + 80)
      && (torznab.Resp? && torznab.body.Decoded? ==>
            TorznabTotal(torznab) <= |Occurrences(torznab.body.value, 0)|)
  {
  }
}
