/** Character classes and the few Python `str` operations the downloader relies on:
    `str.isspace`, `str.strip`, `str.split(c)` and `c.join(parts)`. */
module Text {

  /** Python's `str.isspace()` for one code point: the Unicode white-space
      characters (category Zs and bidirectional classes WS, B, S). */
  predicate IsSpace(c: char) {
    var n := c as int;
    || n == 0x20
    || 0x09 <= n <= 0x0D
    || 0x1C <= n <= 0x1F
    || n == 0x85
    || n == 0xA0
    || n == 0x1680
    || 0x2000 <= n <= 0x200A
    || n == 0x2028
    || n == 0x2029
    || n == 0x202F
    || n == 0x205F
    || n == 0x3000
  }

  /** Neither end of `s` is white space: the shape of every value `str.strip()` returns. */
  predicate Trimmed(s: string) {
    |s| == 0 || (!IsSpace(s[0]) && !IsSpace(s[|s| - 1]))
  }

  /** Length of the longest all-white-space prefix. */
  function LeadingSpaces(s: string): (n: nat)
    ensures n <= |s|
    ensures forall i :: 0 <= i < n ==> IsSpace(s[i])
    ensures n < |s| ==> !IsSpace(s[n])
  {
    if |s| > 0 && IsSpace(s[0]) then 1 + LeadingSpaces(s[1..]) else 0
  }

  /** Length of the longest all-white-space suffix. */
  function TrailingSpaces(s: string): (n: nat)
    ensures n <= |s|
    ensures forall i :: |s| - n <= i < |s| ==> IsSpace(s[i])
    ensures n < |s| ==> !IsSpace(s[|s| - n - 1])
  {
    if |s| > 0 && IsSpace(s[|s| - 1]) then 1 + TrailingSpaces(s[..|s| - 1]) else 0
  }

  /** `r` is the run of `s` that starts at index `a`. */
  predicate RunAt(s: string, r: string, a: nat) {
    a + |r| <= |s| && forall i :: 0 <= i < |r| ==> r[i] == s[a + i]
  }

  /** Python's `str.strip()` with no argument: `s` with the white space at both ends
      removed. The result is the run of `s` that starts at the first non-space
      character and ends after the last one; every character cut away is white space,
      and an all-white-space text strips to nothing. */
  function Strip(s: string): (r: string)
    ensures Trimmed(r)
    ensures RunAt(s, r, LeadingSpaces(s))
    ensures LeadingSpaces(s) < |s| ==> |r| == |s| - LeadingSpaces(s) - TrailingSpaces(s)
    ensures forall i :: LeadingSpaces(s) + |r| <= i < |s| ==> IsSpace(s[i])
    ensures Trimmed(s) ==> r == s
  {
    var a := LeadingSpaces(s);
    if a == |s| then []
    else
      assert !IsSpace(s[a]);
      s[a..|s| - TrailingSpaces(s)]
  }

  /** Every character of `Strip(s)` is a character of `s`. */
  lemma StripKeepsOnlyCharsOf(s: string, c: char)
    ensures c in Strip(s) ==> c in s
  {
    var r := Strip(s);
    var a := LeadingSpaces(s);
    forall k | 0 <= k < |r|
      ensures r[k] == s[a + k] && a + k < |s|
    {
    }
  }

  /** Number of occurrences of `c` in `s`. */
  function Count<T(==)>(s: seq<T>, c: T): (n: nat)
    ensures n <= |s|
  {
    if |s| == 0 then 0 else (if s[0] == c then 1 else 0) + Count(s[1..], c)
  }

  lemma {:induction false} CountAppend<T>(a: seq<T>, b: seq<T>, c: T)
    ensures Count(a + b, c) == Count(a, c) + Count(b, c)
  {
    if |a| == 0 {
      assert a + b == b;
    } else {
      assert (a + b)[1..] == a[1..] + b;
      CountAppend(a[1..], b, c);
    }
  }

  /** Index of the first `c` in `s`, or `|s|` when there is none. */
  function IndexOf(s: string, c: char): (i: nat)
    ensures i <= |s|
    ensures i < |s| ==> s[i] == c
    ensures forall j :: 0 <= j < i ==> s[j] != c
  {
    if |s| == 0 then 0 else if s[0] == c then 0 else 1 + IndexOf(s[1..], c)
  }

  /** Python's `s.split(c)` for a one-character separator: the pieces between the
      separators, always at least one (`"".split(c)` is `[""]`). */
  function Split(s: string, c: char): (parts: seq<string>)
    ensures |parts| >= 1
    ensures forall k :: 0 <= k < |parts| ==> c !in parts[k]
    decreases |s|
  {
    var i := IndexOf(s, c);
    if i == |s| then [s] else [s[..i]] + Split(s[i + 1..], c)
  }

  /** Python's `c.join(parts)`. */
  function Join(parts: seq<string>, c: char): string
  {
    if |parts| == 0 then []
    else if |parts| == 1 then parts[0]
    else parts[0] + [c] + Join(parts[1..], c)
  }

  predicate NoneContains(parts: seq<string>, c: char) {
    forall k :: 0 <= k < |parts| ==> c !in parts[k]
  }

  lemma NoneContainsTail(parts: seq<string>, c: char)
    requires |parts| > 0
    ensures NoneContains(parts, c) ==> NoneContains(parts[1..], c)
  {
    assert forall k :: 0 <= k < |parts| - 1 ==> parts[1..][k] == parts[k + 1];
  }

  /** A text with a separator is the piece before its first separator, the separator,
      and the rest. */
  lemma FirstSeparator(s: string, c: char)
    requires IndexOf(s, c) < |s|
    ensures var i := IndexOf(s, c);
            s == s[..i] + [c] + s[i + 1..] && c !in s[..i]
  {
    var i := IndexOf(s, c);
    assert c !in s[..i] by {
      assert forall j :: 0 <= j < i ==> s[..i][j] == s[j];
    }
    assert s == s[..i] + [c] + s[i + 1..];
  }

  /** A text without the separator splits into itself. */
  lemma SplitNone(a: string, c: char)
    requires c !in a
    ensures Split(a, c) == [a]
  {
    assert IndexOf(a, c) == |a|;
  }

  /** One step of the split: a separator-free piece, the separator, the rest. */
  lemma SplitStep(a: string, b: string, c: char)
    requires c !in a
    ensures Split(a + [c] + b, c) == [a] + Split(b, c)
  {
    var s := a + [c] + b;
    assert IndexOf(s, c) == |a| by {
      assert s == a + ([c] + b);
      IndexOfAppend(a, [c] + b, c);
      assert IndexOf(a, c) == |a|;
      assert IndexOf([c] + b, c) == 0;
    }
    assert s[..|a|] == a;
    assert s[|a| + 1..] == b;
  }

  /** Joining the pieces of a split gives back the original text. */
  lemma {:induction false} JoinSplit(s: string, c: char)
    ensures Join(Split(s, c), c) == s
    decreases |s|
  {
    var i := IndexOf(s, c);
    if i < |s| {
      FirstSeparator(s, c);
      var a := s[..i];
      var b := s[i + 1..];
      SplitStep(a, b, c);
      JoinSplit(b, c);
      assert ([a] + Split(b, c))[1..] == Split(b, c);
    }
  }

  /** Splitting a join of separator-free pieces gives back the pieces. */
  lemma {:induction false} SplitJoin(parts: seq<string>, c: char)
    requires |parts| >= 1
    requires NoneContains(parts, c)
    ensures Split(Join(parts, c), c) == parts
  {
    if |parts| > 1 {
      NoneContainsTail(parts, c);
      SplitJoin(parts[1..], c);
      SplitStep(parts[0], Join(parts[1..], c), c);
      assert [parts[0]] + parts[1..] == parts;
    } else {
      SplitNone(parts[0], c);
    }
  }

  /** `s.split(c)` has one more piece than `s` has separators. */
  lemma {:induction false} SplitLength(s: string, c: char)
    ensures |Split(s, c)| == Count(s, c) + 1
    decreases |s|
  {
    var i := IndexOf(s, c);
    if i == |s| {
      CountNone(s, c);
    } else {
      FirstSeparator(s, c);
      var a := s[..i];
      var b := s[i + 1..];
      SplitStep(a, b, c);
      SplitLength(b, c);
      CountAppend(a + [c], b, c);
      CountAppend(a, [c], c);
      CountNone(a, c);
    }
  }

  lemma {:induction false} CountNone<T>(s: seq<T>, c: T)
    requires c !in s
    ensures Count(s, c) == 0
  {
    if |s| > 0 {
      assert s == [s[0]] + s[1..];
      CountNone(s[1..], c);
    }
  }

  /** Where the first `c` of a concatenation lies. */
  lemma IndexOfAppend(a: string, b: string, c: char)
    ensures IndexOf(a + b, c) == if IndexOf(a, c) < |a| then IndexOf(a, c) else |a| + IndexOf(b, c)
  {
    var s := a + b;
    var i := IndexOf(a, c);
    if i < |a| {
      assert s[i] == a[i];
      assert forall j :: 0 <= j < i ==> s[j] == a[j];
    } else {
      var k := IndexOf(b, c);
      assert forall j :: 0 <= j < |a| ==> s[j] == a[j];
      assert forall j :: |a| <= j < |a| + k ==> s[j] == b[j - |a|];
      assert |a| + k < |s| ==> s[|a| + k] == b[k];
    }
  }

  /** Splitting after a separator: the pieces of `a + [c] + b` are those of `a`
      followed by those of `b`. */
  lemma {:induction false} SplitAfterSeparator(a: string, b: string, c: char)
    ensures Split(a + [c] + b, c) == Split(a, c) + Split(b, c)
    decreases |a|
  {
    var i := IndexOf(a, c);
    if i == |a| {
      assert c !in a;
      SplitStep(a, b, c);
      SplitNone(a, c);
    } else {
      FirstSeparator(a, c);
      var a1 := a[..i];
      var a2 := a[i + 1..];
      SplitAfterSeparator(a2, b, c);
      SplitPastFirstPiece(a1, a2, b, c);
      assert a == a1 + [c] + a2;
    }
  }

  /** The inductive step of `SplitAfterSeparator`: a separator-free first piece `a1`
      is split off both sides alike. */
  lemma SplitPastFirstPiece(a1: string, a2: string, b: string, c: char)
    requires c !in a1
    requires Split(a2 + [c] + b, c) == Split(a2, c) + Split(b, c)
    ensures Split(a1 + [c] + a2 + [c] + b, c) == Split(a1 + [c] + a2, c) + Split(b, c)
  {
    calc {
      Split(a1 + [c] + a2 + [c] + b, c);
      { assert a1 + [c] + a2 + [c] + b == a1 + [c] + (a2 + [c] + b); }
      Split(a1 + [c] + (a2 + [c] + b), c);
      { SplitStep(a1, a2 + [c] + b, c); }
      [a1] + Split(a2 + [c] + b, c);
      [a1] + (Split(a2, c) + Split(b, c));
      ([a1] + Split(a2, c)) + Split(b, c);
      { SplitStep(a1, a2, c); }
      Split(a1 + [c] + a2, c) + Split(b, c);
    }
  }

  /** Splitting when the text starts with a separator-free run `m`: `m` is glued to
      the front of the first piece and the other pieces are untouched. */
  lemma SplitAfterFreeRun(m: string, b: string, c: char)
    requires c !in m
    ensures var pb := Split(b, c);
            Split(m + b, c) == [m + pb[0]] + pb[1..]
  {
    var j := IndexOf(b, c);
    if j == |b| {
      assert c !in b;
      SplitNone(b, c);
      SplitNone(m + b, c);
    } else {
      FirstSeparator(b, c);
      var b1 := b[..j];
      var b2 := b[j + 1..];
      assert m + b == (m + b1) + [c] + b2;
      SplitStep(m + b1, b2, c);
      SplitStep(b1, b2, c);
    }
  }
}
