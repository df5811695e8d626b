/** The lyrics sidecar: an LRC-style file whose header names artist and title and
    whose body is the fetched lyric text with the attribution header removed and the
    section markers and blank lines dropped. */
module Lyrics {
  import opened Results
  import opened Text
  import Artifacts

  const Attribution: string := "Lyrics"
  const Newline: char := '\n'

  /** "Lyrics" occurs in `s` at `i`. */
  predicate LyricsAt(s: string, i: nat) {
    && i + |Attribution| <= |s|
    && s[i] == 'L' && s[i + 1] == 'y' && s[i + 2] == 'r'
    && s[i + 3] == 'i' && s[i + 4] == 'c' && s[i + 5] == 's'
  }

  /** The pattern `.*Lyrics` matches exactly `s[p..q]`: a run of characters other than
      a newline (`.` does not match one) that ends with "Lyrics". */
  predicate DotStarLyrics(s: string, p: nat, q: nat) {
    && p + |Attribution| <= q <= |s|
    && LyricsAt(s, q - |Attribution|)
    && forall k :: p <= k < q ==> s[k] != Newline
  }

  lemma AttributionHasNoNewline(s: string, i: nat)
    requires LyricsAt(s, i)
    ensures forall k :: i <= k < i + |Attribution| ==> s[k] != Newline
  {
  }

  /** Leftmost occurrence of "Lyrics" at or after `i`. */
  function FirstLyrics(s: string, i: nat): (r: Option<nat>)
    requires i <= |s|
    ensures r.Some? ==> i <= r.value && LyricsAt(s, r.value)
    ensures r.Some? ==> forall k: nat :: i <= k < r.value ==> !LyricsAt(s, k)
    ensures r.None? ==> forall k: nat :: i <= k ==> !LyricsAt(s, k)
    decreases |s| - i
  {
    if i == |s| then None
    else if LyricsAt(s, i) then Some(i)
    else FirstLyrics(s, i + 1)
  }

  /** Start of the line that holds position `i`. */
  function LineStart(s: string, i: nat): (r: nat)
    requires i <= |s|
    ensures r <= i
    ensures r == 0 || s[r - 1] == Newline
    ensures forall k :: r <= k < i ==> s[k] != Newline
  {
    if i == 0 || s[i - 1] == Newline then i else LineStart(s, i - 1)
  }

  /** End (the newline, or the end of text) of the line that holds position `i`. */
  function LineEnd(s: string, i: nat): (r: nat)
    requires i <= |s|
    ensures i <= r <= |s|
    ensures r == |s| || s[r] == Newline
    ensures forall k :: i <= k < r ==> s[k] != Newline
  {
    var n := IndexOf(s[i..], Newline);
    assert forall k :: i <= k < i + n ==> s[k] == s[i..][k - i];
    i + n
  }

  /** Rightmost occurrence of "Lyrics" in `[lo, i]`, given one at `lo`. */
  function LastLyrics(s: string, lo: nat, i: nat): (r: nat)
    requires lo <= i && LyricsAt(s, lo)
    ensures lo <= r <= i && LyricsAt(s, r)
    ensures forall k: nat :: r < k <= i ==> !LyricsAt(s, k)
    decreases i - lo
  {
    if LyricsAt(s, i) then i else LastLyrics(s, lo, i - 1)
  }

  /** The span `re.search(r'.*Lyrics', s)` finds, as `(start, end)`. There is one exactly
      when "Lyrics" occurs. It starts at the start of the first line that holds
      "Lyrics", no match starts earlier, and among the matches that start there it is
      the longest (greedy `.*`): it ends after that line's last "Lyrics". */
  function LyricsMatch(s: string): (m: Option<(nat, nat)>)
    ensures m.None? <==> forall i: nat :: !LyricsAt(s, i)
    ensures m.Some? ==> DotStarLyrics(s, m.value.0, m.value.1)
    ensures m.Some? ==> m.value.0 == 0 || s[m.value.0 - 1] == Newline
    ensures m.Some? ==> forall i: nat :: i < m.value.0 ==> !LyricsAt(s, i)
    ensures m.Some? ==> forall p: nat, q: nat :: p < m.value.0 ==> !DotStarLyrics(s, p, q)
    ensures m.Some? ==> forall q: nat :: DotStarLyrics(s, m.value.0, q) ==> q <= m.value.1
  {
    match FirstLyrics(s, 0)
    case None => None
    case Some(i0) => Some(SpanFrom(s, i0))
  }

  /** The span of the match, given the first occurrence `i0` of "Lyrics": from the start
      of its line to the end of the line's last "Lyrics". */
  function SpanFrom(s: string, i0: nat): (m: (nat, nat))
    requires LyricsAt(s, i0) && forall k: nat :: k < i0 ==> !LyricsAt(s, k)
    ensures DotStarLyrics(s, m.0, m.1)
    ensures m.0 <= i0 && (m.0 == 0 || s[m.0 - 1] == Newline)
    ensures forall p: nat, q: nat :: p < m.0 ==> !DotStarLyrics(s, p, q)
    ensures forall q: nat :: DotStarLyrics(s, m.0, q) ==> q <= m.1
  {
    var p := LineStart(s, i0);
    var e := LineEnd(s, i0);
    assert i0 + |Attribution| <= e by {
      AttributionHasNoNewline(s, i0);
    }
    var j := LastLyrics(s, i0, e - |Attribution|);
    MatchShape(s, i0, p, e, j);
    (p, j + |Attribution|)
  }

  lemma MatchShape(s: string, i0: nat, p: nat, e: nat, j: nat)
    requires LyricsAt(s, i0) && forall k: nat :: k < i0 ==> !LyricsAt(s, k)
    requires p <= i0 && (p == 0 || s[p - 1] == Newline) && forall k :: p <= k < i0 ==> s[k] != Newline
    requires i0 + |Attribution| <= e <= |s| && (e == |s| || s[e] == Newline)
    requires forall k :: i0 <= k < e ==> s[k] != Newline
    requires i0 <= j <= e - |Attribution| && LyricsAt(s, j)
    requires forall k: nat :: j < k <= e - |Attribution| ==> !LyricsAt(s, k)
    ensures DotStarLyrics(s, p, j + |Attribution|)
    ensures forall p': nat, q: nat :: p' < p ==> !DotStarLyrics(s, p', q)
    ensures forall q: nat :: DotStarLyrics(s, p, q) ==> q <= j + |Attribution|
  {
    forall p': nat, q: nat | p' < p
      ensures !DotStarLyrics(s, p', q)
    {
      if p' + |Attribution| <= q <= |s| && LyricsAt(s, q - |Attribution|) {
        assert q - |Attribution| >= i0;
        assert p' <= p - 1 < q && s[p - 1] == Newline;
      }
    }
    forall q: nat | DotStarLyrics(s, p, q)
      ensures q <= j + |Attribution|
    {
      assert q - |Attribution| >= i0;
      if e < |s| {
        assert s[e] == Newline;
      }
      assert q <= e;
    }
  }

  /** `re.sub(r'.*Lyrics', '', s, 1)`: the match found by `LyricsMatch` is deleted and
      nothing else changes. No newline is ever removed, the text never grows, and
      without "Lyrics" the text is returned unchanged. */
  function DropAttribution(s: string): (r: string)
    ensures (forall i: nat :: !LyricsAt(s, i)) ==> r == s
    ensures LyricsMatch(s).Some? ==> |r| == |s| - (LyricsMatch(s).value.1 - LyricsMatch(s).value.0)
    ensures Count(r, Newline) == Count(s, Newline)
  {
    match LyricsMatch(s)
    case None => s
    case Some((p, q)) =>
      DeleteNewlineFree(s, p, q);
      s[..p] + s[q..]
  }

  /** Deleting a span without newlines keeps every newline. */
  lemma DeleteNewlineFree(s: string, p: nat, q: nat)
    requires p <= q <= |s|
    requires forall k :: p <= k < q ==> s[k] != Newline
    ensures Count(s[..p] + s[q..], Newline) == Count(s, Newline)
  {
    assert s == s[..p] + s[p..q] + s[q..];
    assert forall k :: 0 <= k < q - p ==> s[p..q][k] == s[p + k];
    CountAppend(s[..p] + s[p..q], s[q..], Newline);
    CountAppend(s[..p], s[p..q], Newline);
    CountNone(s[p..q], Newline);
    CountAppend(s[..p], s[q..], Newline);
  }

  /** Line by line, the deletion touches one line only: the line that holds the first
      "Lyrics" loses the matched span from its front, and every other line (in
      particular every earlier line) is unchanged. */
  lemma DropAttributionLines(s: string)
    requires LyricsMatch(s).Some?
    ensures var p := LyricsMatch(s).value.0;
            var q := LyricsMatch(s).value.1;
            var lines := Split(s, Newline);
            var after := Split(DropAttribution(s), Newline);
            var line := Count(s[..p], Newline);
            && |after| == |lines|
            && line < |lines|
            && lines[line] == s[p..q] + after[line]
            && forall k :: 0 <= k < |lines| && k != line ==> lines[k] == after[k]
  {
    var p := LyricsMatch(s).value.0;
    var q := LyricsMatch(s).value.1;
    assert Newline !in s[p..q] by {
      forall k | 0 <= k < q - p ensures s[p..q][k] != Newline {
        assert s[p..q][k] == s[p + k];
      }
    }
    DeleteLineStartRun(s, p, q);
  }

  /** Deleting a newline-free span that starts a line changes that line only. */
  lemma DeleteLineStartRun(s: string, p: nat, q: nat)
    requires p <= q <= |s|
    requires Newline !in s[p..q]
    requires p == 0 || s[p - 1] == Newline
    ensures var lines := Split(s, Newline);
            var after := Split(s[..p] + s[q..], Newline);
            var line := Count(s[..p], Newline);
            && |after| == |lines|
            && line < |lines|
            && lines[line] == s[p..q] + after[line]
            && forall k :: 0 <= k < |lines| && k != line ==> lines[k] == after[k]
  {
    var m := s[p..q];
    var b := s[q..];
    if p == 0 {
      assert s == m + b;
      assert s[..p] + s[q..] == b;
      assert s[..p] == [];
      SplitAfterFreeRun(m, b, Newline);
      OneLineDiffers([], m, Split(b, Newline));
    } else {
      var a := s[..p - 1];
      assert s[..p] == a + [Newline];
      assert Split(s, Newline) == Split(a, Newline) + Split(m + b, Newline) by {
        assert s == a + [Newline] + (m + b);
        SplitAfterSeparator(a, m + b, Newline);
      }
      assert Split(s[..p] + s[q..], Newline) == Split(a, Newline) + Split(b, Newline) by {
        assert s[..p] + s[q..] == a + [Newline] + b;
        SplitAfterSeparator(a, b, Newline);
      }
      assert Count(s[..p], Newline) == |Split(a, Newline)| by {
        SplitLength(a, Newline);
        CountAppend(a, [Newline], Newline);
        assert Count([Newline], Newline) == 1;
      }
      SplitAfterFreeRun(m, b, Newline);
      OneLineDiffers(Split(a, Newline), m, Split(b, Newline));
    }
  }

  lemma OneLineDiffers(before: seq<string>, m: string, rest: seq<string>)
    requires |rest| >= 1
    ensures var lines := before + ([m + rest[0]] + rest[1..]);
            var after := before + rest;
            && |after| == |lines|
            && |before| < |lines|
            && lines[|before|] == m + after[|before|]
            && forall k :: 0 <= k < |lines| && k != |before| ==> lines[k] == after[k]
  {
  }

  /** Only the first line that holds "Lyrics" is touched: when the text opens with a
      line reading just "Lyrics", that line's text goes and everything from its newline
      on stays, whatever later lines hold (a later "Lyrics" included). */
  lemma DropAttributionFirstLineOnly(rest: string)
    ensures DropAttribution(Attribution + [Newline] + rest) == [Newline] + rest
  {
    var s := Attribution + [Newline] + rest;
    assert LyricsAt(s, 0);
    var m := LyricsMatch(s);
    var q := m.value.1;
    assert m.value.0 == 0;
    assert DotStarLyrics(s, 0, 6);
    assert q <= 6 by {
      assert DotStarLyrics(s, 0, q);
      assert s[6] == Newline;
    }
    assert s[6..] == [Newline] + rest;
  }

  /** A line the LRC body keeps (after stripping): not blank, not a `[...]` marker. */
  predicate KeepLine(t: string) {
    |t| > 0 && t[0] != '['
  }

  function StripAll(lines: seq<string>): (r: seq<string>)
    ensures |r| == |lines|
    ensures forall k :: 0 <= k < |lines| ==> r[k] == Strip(lines[k])
  {
    if |lines| == 0 then [] else [Strip(lines[0])] + StripAll(lines[1..])
  }

  /** `[line.strip() for line in lines if line.strip() and not line.strip().startswith('[')]`:
      every kept line is stripped, non-empty and not a marker, no line gains a newline,
      and none is ever added. */
  function CleanLines(lines: seq<string>): (r: seq<string>)
    ensures |r| <= |lines|
    ensures forall k :: 0 <= k < |r| ==> Trimmed(r[k]) && KeepLine(r[k])
    ensures NoneContains(lines, Newline) ==> NoneContains(r, Newline)
  {
    if |lines| == 0 then []
    else
      var t := Strip(lines[0]);
      StripKeepsOnlyCharsOf(lines[0], Newline);
      var rest := CleanLines(lines[1..]);
      NoneContainsTail(lines, Newline);
      if KeepLine(t) then [t] + rest else rest
  }

  /** `a` is `b` with some elements left out, the rest in their original order. */
  predicate IsSubsequence<T(==)>(a: seq<T>, b: seq<T>)
    decreases |b|
  {
    if |a| == 0 then true
    else if |b| == 0 then false
    else if a[0] == b[0] then IsSubsequence(a[1..], b[1..])
    else IsSubsequence(a, b[1..])
  }

  /** The kept lines are the stripped lines that pass `KeepLine`, each of them, in their
      original relative order. */
  lemma {:induction false} CleanLinesIsOrderedFilter(lines: seq<string>)
    ensures IsSubsequence(CleanLines(lines), StripAll(lines))
    ensures forall k :: 0 <= k < |lines| && KeepLine(Strip(lines[k])) ==> Strip(lines[k]) in CleanLines(lines)
  {
    if |lines| > 0 {
      CleanLinesIsOrderedFilter(lines[1..]);
      var s := StripAll(lines);
      assert s[1..] == StripAll(lines[1..]);
      var rest := CleanLines(lines[1..]);
      if !KeepLine(Strip(lines[0])) {
        SubsequenceSkip(rest, s);
      }
      forall k | 0 < k < |lines| && KeepLine(Strip(lines[k]))
        ensures Strip(lines[k]) in CleanLines(lines)
      {
        assert lines[1..][k - 1] == lines[k];
      }
    }
  }

  /** The positions at or after `i` of the lines that pass `KeepLine`, in increasing
      order: each such position, and no other. */
  function KeptIndicesFrom(ts: seq<string>, i: nat): (idx: seq<nat>)
    requires i <= |ts|
    ensures forall j :: 0 <= j < |idx| ==> i <= idx[j] < |ts| && KeepLine(ts[idx[j]])
    ensures forall j, l :: 0 <= j < l < |idx| ==> idx[j] < idx[l]
    ensures forall k :: i <= k < |ts| && KeepLine(ts[k]) ==> k in idx
    decreases |ts| - i
  {
    if i == |ts| then []
    else
      var later := KeptIndicesFrom(ts, i + 1);
      if KeepLine(ts[i]) then [i] + later else later
  }

  /** `r[j]` is the line at position `idx[j]` of `ts`, for every `j`. */
  ghost predicate LinesAtIndices(ts: seq<string>, r: seq<string>, idx: seq<nat>) {
    && |r| == |idx|
    && forall j :: 0 <= j < |idx| ==> idx[j] < |ts| && r[j] == ts[idx[j]]
  }

  /** The kept lines, one for one, are the stripped lines at the kept positions, in
      order: every passing line is kept as often as it occurs, and nothing else is. */
  lemma CleanLinesByIndex(lines: seq<string>)
    ensures var stripped := StripAll(lines);
            LinesAtIndices(stripped, CleanLines(lines), KeptIndicesFrom(stripped, 0))
  {
    assert lines[0..] == lines;
    CleanLinesFrom(lines, 0);
  }

  lemma {:induction false} CleanLinesFrom(lines: seq<string>, i: nat)
    requires i <= |lines|
    ensures var stripped := StripAll(lines);
            LinesAtIndices(stripped, CleanLines(lines[i..]), KeptIndicesFrom(stripped, i))
    decreases |lines| - i
  {
    if i < |lines| {
      CleanLinesFrom(lines, i + 1);
      var stripped := StripAll(lines);
      var later := CleanLines(lines[i + 1..]);
      var laterIdx := KeptIndicesFrom(stripped, i + 1);
      assert lines[i..][1..] == lines[i + 1..];
      assert lines[i..][0] == lines[i];
      assert Strip(lines[i]) == stripped[i];
      if KeepLine(stripped[i]) {
        assert CleanLines(lines[i..]) == [stripped[i]] + later;
        LinesAtIndicesCons(stripped, later, laterIdx, i);
      } else {
        assert CleanLines(lines[i..]) == later;
      }
    }
  }

  /** Putting a line in front, together with its position, extends the pairing. */
  lemma LinesAtIndicesCons(ts: seq<string>, r: seq<string>, idx: seq<nat>, i: nat)
    requires LinesAtIndices(ts, r, idx) && i < |ts|
    ensures LinesAtIndices(ts, [ts[i]] + r, [i] + idx)
  {
    assert forall j :: 0 < j <= |idx| ==> ([ts[i]] + r)[j] == r[j - 1] && ([i] + idx)[j] == idx[j - 1];
  }

  lemma {:induction false} SubsequenceSkip<T>(a: seq<T>, b: seq<T>)
    requires |b| > 0 && IsSubsequence(a, b[1..])
    ensures IsSubsequence(a, b)
    decreases |b|, |a|
  {
    if |a| > 0 && a[0] == b[0] {
      if |b| > 1 {
        SubsequenceTail(a, b[1..]);
        assert b[1..][1..] == b[2..];
      }
    }
  }

  lemma {:induction false} SubsequenceTail<T>(a: seq<T>, b: seq<T>)
    requires |a| > 0 && IsSubsequence(a, b)
    ensures IsSubsequence(a[1..], b)
    decreases |b|, |a|
  {
    if |b| > 0 {
      if a[0] == b[0] {
        SubsequenceSkip(a[1..], b);
      } else {
        SubsequenceTail(a, b[1..]);
        SubsequenceSkip(a[1..], b);
      }
    }
  }

  /** The LRC header: artist and title tags, unsanitised, each on its own line. */
  function Header(artist: string, title: string): string {
    "[ar:" + artist + "]\n[ti:" + title + "]\n"
  }

  /** The lines of the body: the attribution removed, then the text split at newlines
      and cleaned. */
  function BodyLines(lyrics: string): seq<string> {
    CleanLines(Split(DropAttribution(lyrics), Newline))
  }

  /** The file content: the header, then the body lines joined with newlines. */
  function LrcContent(artist: string, title: string, lyrics: string): (c: string)
    ensures |c| >= |Header(artist, title)|
    ensures c[..|Header(artist, title)|] == Header(artist, title)
  {
    var h := Header(artist, title);
    var c := h + Join(BodyLines(lyrics), Newline);
    assert c[..|h|] == h;
    c
  }

  /** Reading the body back line by line gives exactly the cleaned lines: each is
      stripped, non-empty and no marker, and an empty body is the empty string. */
  lemma BodyReadsBack(artist: string, title: string, lyrics: string)
    ensures var body := LrcContent(artist, title, lyrics)[|Header(artist, title)|..];
            var kept := BodyLines(lyrics);
            && (|kept| == 0 ==> body == "")
            && (|kept| > 0 ==> Split(body, Newline) == kept)
            && forall k :: 0 <= k < |kept| ==> Trimmed(kept[k]) && KeepLine(kept[k]) && Newline !in kept[k]
  {
    var kept := BodyLines(lyrics);
    var body := Join(kept, Newline);
    var h := Header(artist, title);
    assert (h + body)[|h|..] == body;
    if |kept| > 0 {
      SplitJoin(kept, Newline);
    }
  }

  /** The sidecar `create_lrc_file` writes. */
  datatype Sidecar = Sidecar(path: string, content: string)

  /** `create_lrc_file`: nothing for empty lyrics; otherwise the LRC content at the
      `.lrc` path that shares its base with the track's audio file. */
  function LrcFile(dir: string, artist: string, title: string, lyrics: string): (r: Option<Sidecar>)
    ensures r.None? <==> lyrics == ""
    ensures r.Some? ==> r.value.path == Artifacts.LyricsPath(dir, artist, title)
    ensures r.Some? ==> r.value.content == LrcContent(artist, title, lyrics)
  {
    if lyrics == "" then None
    else Some(Sidecar(Artifacts.LyricsPath(dir, artist, title), LrcContent(artist, title, lyrics)))
  }
}
