/** Playlist identifier extraction: the search for `playlist/([a-zA-Z0-9]+)` in the
    pasted URL, written as a direct scan rather than a regular-expression engine. */
module PlaylistUrl {
  import opened Results

  const Marker: string := "playlist/"
  const InvalidUrlMessage: string := "Invalid Spotify Playlist URL"

  /** The class `[a-zA-Z0-9]`: ASCII letters and digits only. */
  predicate IsAsciiAlnum(c: char) {
    ('a' <= c <= 'z') || ('A' <= c <= 'Z') || ('0' <= c <= '9')
  }

  predicate AllAlnum(s: string) {
    forall i :: 0 <= i < |s| ==> IsAsciiAlnum(s[i])
  }

  /** The pattern can start matching at `p`: the marker is there and at least one
      letter or digit follows it. */
  predicate MatchAt(s: string, p: nat) {
    && p + |Marker| < |s|
    && s[p..p + |Marker|] == Marker
    && IsAsciiAlnum(s[p + |Marker|])
  }

  /** Length of the longest run of letters and digits starting at `i` (what the greedy
      `+` consumes). */
  function AlnumRun(s: string, i: nat): (n: nat)
    requires i <= |s|
    ensures i + n <= |s|
    ensures AllAlnum(s[i..i + n])
    ensures i + n == |s| || !IsAsciiAlnum(s[i + n])
    decreases |s| - i
  {
    if i < |s| && IsAsciiAlnum(s[i]) then
      var n := 1 + AlnumRun(s, i + 1);
      assert s[i..i + n] == [s[i]] + s[i + 1..i + n];
      n
    else 0
  }

  /** The leftmost position at or after `p` where the pattern matches. */
  function FirstMatch(s: string, p: nat): (r: Option<nat>)
    requires p <= |s|
    ensures r.Some? ==> p <= r.value && MatchAt(s, r.value)
    ensures r.Some? ==> forall q: nat :: p <= q < r.value ==> !MatchAt(s, q)
    ensures r.None? ==> forall q: nat :: p <= q ==> !MatchAt(s, q)
    decreases |s| - p
  {
    if p == |s| then None
    else if MatchAt(s, p) then Some(p)
    else FirstMatch(s, p + 1)
  }

  /** `id` is the group the pattern captures when the match starts at `p`. */
  predicate CapturedAt(s: string, p: nat, id: string) {
    && MatchAt(s, p)
    && AllAlnum(id)
    && p + |Marker| + |id| <= |s|
    && s[p + |Marker|..p + |Marker| + |id|] == id
    && (p + |Marker| + |id| == |s| || !IsAsciiAlnum(s[p + |Marker| + |id|]))
  }

  /** The identifier of a playlist URL. On success it is a non-empty run of ASCII
      letters and digits that directly follows `playlist/` at the leftmost place where
      such a run follows it, and it extends as far as the run does. The URL is rejected
      with the invalid-URL message exactly when no `playlist/` is followed by a letter
      or digit. */
  function ExtractPlaylistId(url: string): (r: Result<string, string>)
    ensures r.Success? ==> |r.value| > 0 && AllAlnum(r.value)
    ensures r.Success? ==> exists p: nat :: CapturedAt(url, p, r.value) && forall q: nat :: q < p ==> !MatchAt(url, q)
    ensures r.Failure? <==> forall p: nat :: !MatchAt(url, p)
    ensures r.Failure? ==> r.error == InvalidUrlMessage
  {
    match FirstMatch(url, 0)
    case None => Failure(InvalidUrlMessage)
    case Some(p) =>
      var start := p + |Marker|;
      var id := url[start..start + AlnumRun(url, start)];
      assert CapturedAt(url, p, id);
      Success(id)
  }

  /** The greedy run is the only run of letters and digits at `i` that is not followed
      by another letter or digit. */
  lemma {:induction false} RunIsMaximal(s: string, i: nat, n: nat)
    requires i + n <= |s|
    requires AllAlnum(s[i..i + n])
    requires i + n == |s| || !IsAsciiAlnum(s[i + n])
    ensures AlnumRun(s, i) == n
    decreases n
  {
    if n > 0 {
      assert s[i] == s[i..i + n][0];
      assert s[i + 1..i + n] == s[i..i + n][1..];
      RunIsMaximal(s, i + 1, n - 1);
    }
  }

  /** Converse of the contract of `ExtractPlaylistId`: whatever the pattern captures at
      its leftmost matching position is the identifier returned. */
  lemma ExtractReturnsLeftmostCapture(url: string, p: nat, id: string)
    requires CapturedAt(url, p, id)
    requires forall q: nat :: q < p ==> !MatchAt(url, q)
    ensures ExtractPlaylistId(url) == Success(id)
  {
    var start := p + |Marker|;
    assert FirstMatch(url, 0) == Some(p);
    RunIsMaximal(url, start, |id|);
  }

  /** An occurrence of `playlist/` that is not followed by a letter or digit is skipped
      and the search goes on to a later one. */
  lemma SkipsBareMarker()
    ensures ExtractPlaylistId("playlist/?playlist/x1") == Success("x1")
  {
    var s := "playlist/?playlist/x1";
    forall q: nat | q < 10
      ensures !MatchAt(s, q)
    {
      if q + |Marker| < |s| {
        assert s[q..q + |Marker|][8] == s[q + 8];
      }
    }
    assert s[10..19] == Marker;
    assert s[19..21] == "x1";
    ExtractReturnsLeftmostCapture(s, 10, "x1");
  }
}
