/** The string operations of Rust's `str` that the adapters rely on:
    `find`, `contains`, `trim` and `trim_end_matches('/')`. */
module Text {
  import opened Base

  /** `needle` occurs in `s` starting at index `i`. */
  predicate IsAt(s: string, needle: string, i: nat) {
    i + |needle| <= |s| && s[i..i + |needle|] == needle
  }

  lemma IsAtShift(s: string, needle: string)
    requires |s| > 0
    ensures forall j: nat :: IsAt(s, needle, j) <==>
      (j == 0 && IsAt(s, needle, 0)) || (j > 0 && IsAt(s[1..], needle, j - 1))
  {
    forall j: nat | j > 0
      ensures IsAt(s, needle, j) <==> IsAt(s[1..], needle, j - 1)
    {
      if j + |needle| <= |s| {
        var t := s[1..];
        var a, b := s[j..j + |needle|], t[j - 1..j - 1 + |needle|];
        assert forall k :: 0 <= k < |a| ==> a[k] == b[k];
        assert a == b;
      }
    }
  }

  /** Occurrences in a suffix are occurrences in the whole text, shifted. */
  lemma IsAtSuffix(s: string, needle: string, off: nat, k: nat)
    requires off <= |s|
    ensures IsAt(s[off..], needle, k) <==> IsAt(s, needle, off + k)
  {
    if off + k + |needle| <= |s| {
      assert s[off..][k..k + |needle|] == s[off + k..off + k + |needle|];
    }
  }

  /** An occurrence that fits inside a prefix is an occurrence in the whole. */
  lemma IsAtPrefix(t: string, w: string, needle: string, k: nat)
    requires |w| <= |t| && w == t[..|w|] && k + |needle| <= |w|
    ensures IsAt(w, needle, k) <==> IsAt(t, needle, k)
  {
    assert w[k..k + |needle|] == t[k..k + |needle|];
  }

  /** `s.find(needle)`: the index of the first occurrence of `needle`, if any. */
  function Find(s: string, needle: string): (r: Option<nat>)
    ensures r.Some? ==> r.value + |needle| <= |s|
    decreases |s|
  {
    if |s| < |needle| then None
    else if s[..|needle|] == needle then Some(0)
    else
      var rest := Find(s[1..], needle);
      if rest.None? then None else Some(rest.value + 1)
  }

  /** `find` reports the first occurrence, and none when there is none. */
  lemma {:induction false} FindSpec(s: string, needle: string)
    ensures var r := Find(s, needle);
      (r.Some? ==> IsAt(s, needle, r.value) && forall j: nat :: j < r.value ==> !IsAt(s, needle, j))
      && (r.None? ==> forall j: nat :: !IsAt(s, needle, j))
    decreases |s|
  {
    if |s| >= |needle| && s[..|needle|] != needle {
      FindSpec(s[1..], needle);
      IsAtShift(s, needle);
    }
  }

  /** `s.contains(needle)` */
  predicate Contains(s: string, needle: string) {
    Find(s, needle).Some?
  }

  lemma ContainsIff(s: string, needle: string)
    ensures Contains(s, needle) <==> exists j: nat :: IsAt(s, needle, j)
  {
    FindSpec(s, needle);
  }

  // ---------------------------------------------------------------------
  // Trimming

  /** Rust's `char::is_whitespace` (the Unicode White_Space property). */
  predicate IsWhitespace(c: char) {
    ('\t' <= c <= '\r') || c == ' ' || c == '\U{0085}' || c == '\U{00A0}' || c == '\U{1680}'
    || ('\U{2000}' <= c <= '\U{200A}') || c == '\U{2028}' || c == '\U{2029}' || c == '\U{202F}'
    || c == '\U{205F}' || c == '\U{3000}'
  }

  function TrimStart(s: string): string {
    if |s| > 0 && IsWhitespace(s[0]) then TrimStart(s[1..]) else s
  }

  function TrimEnd(s: string): string {
    if |s| > 0 && IsWhitespace(s[|s| - 1]) then TrimEnd(s[..|s| - 1]) else s
  }

  /** `s.trim()` */
  function Trim(s: string): string {
    TrimEnd(TrimStart(s))
  }

  lemma {:induction false} TrimStartSpec(s: string)
    ensures var r := TrimStart(s);
      |r| <= |s| && r == s[|s| - |r|..]
      && (forall k :: 0 <= k < |s| - |r| ==> IsWhitespace(s[k]))
      && (r == [] || !IsWhitespace(r[0]))
  {
    if |s| > 0 && IsWhitespace(s[0]) {
      var t := s[1..];
      TrimStartSpec(t);
      var r := TrimStart(t);
      assert t[|t| - |r|..] == s[|s| - |r|..];
      forall k | 1 <= k < |s| - |r| ensures IsWhitespace(s[k]) {
        assert s[k] == t[k - 1];
      }
    }
  }

  lemma {:induction false} TrimEndSpec(s: string)
    ensures var r := TrimEnd(s);
      |r| <= |s| && r == s[..|r|]
      && (forall k :: |r| <= k < |s| ==> IsWhitespace(s[k]))
      && (r == [] || !IsWhitespace(r[|r| - 1]))
  {
    if |s| > 0 && IsWhitespace(s[|s| - 1]) {
      TrimEndSpec(s[..|s| - 1]);
    }
  }

  /** `r` is `s[i..j]` and only whitespace lies outside that slice. */
  predicate TrimmedTo(s: string, r: string, i: nat, j: nat) {
    i <= j <= |s| && r == s[i..j]
    && (forall k :: 0 <= k < i ==> IsWhitespace(s[k]))
    && (forall k :: j <= k < |s| ==> IsWhitespace(s[k]))
  }

  /** Trimming keeps the longest slice of `s` that neither starts nor ends
      with whitespace, removing only whitespace from both ends. */
  lemma TrimSpec(s: string)
    ensures exists i, j :: TrimmedTo(s, Trim(s), i, j)
    ensures var r := Trim(s); r == [] || (!IsWhitespace(r[0]) && !IsWhitespace(r[|r| - 1]))
  {
    var t := TrimStart(s);
    TrimStartSpec(s);
    TrimEndSpec(t);
    var r := TrimEnd(t);
    var i := |s| - |t|;
    var j := i + |r|;
    assert Trim(s) == r;
    assert r == s[i..j];
    forall k | j <= k < |s| ensures IsWhitespace(s[k]) {
      assert s[k] == t[k - i];
    }
    assert TrimmedTo(s, r, i, j);
    if r != [] {
      assert r[0] == t[0] && t != [];
      assert !IsWhitespace(r[0]) && !IsWhitespace(r[|r| - 1]);
    }
  }

  /** `url.trim_end_matches('/')`: the URL with every trailing slash removed. */
  function TrimEndSlashes(url: string): (r: string)
    ensures |r| <= |url| && r == url[..|r|]
    ensures forall k :: |r| <= k < |url| ==> url[k] == '/'
    ensures r == [] || r[|r| - 1] != '/'
    decreases |url|
  {
    if |url| > 0 && url[|url| - 1] == '/' then TrimEndSlashes(url[..|url| - 1]) else url
  }

  /** Trimming trailing slashes twice changes nothing more. */
  lemma TrimEndSlashesIdempotent(url: string)
    ensures TrimEndSlashes(TrimEndSlashes(url)) == TrimEndSlashes(url)
  {
  }
}
