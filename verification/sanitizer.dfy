/** The downloader's file-name sanitiser: the nine characters Windows forbids in a
    file name become `_`, then white space is trimmed from both ends. */
module Sanitizer {
  import opened Text

  /** The characters `\ / * ? : " < > |`. */
  predicate IsReserved(c: char) {
    c == '\\' || c == '/' || c == '*' || c == '?' || c == ':'
    || c == '"' || c == '<' || c == '>' || c == '|'
  }

  const Replacement: char := '_'

  predicate NoReserved(s: string) {
    forall i :: 0 <= i < |s| ==> !IsReserved(s[i])
  }

  /** A name the sanitiser has nothing to do to. */
  predicate IsClean(s: string) {
    NoReserved(s) && Trimmed(s)
  }

  function SafeChar(c: char): (d: char)
    ensures !IsReserved(d)
    ensures IsSpace(d) <==> IsSpace(c)
    ensures !IsReserved(c) ==> d == c
  {
    if IsReserved(c) then Replacement else c
  }

  /** The character-class substitution: one character out for each character in. */
  function ReplaceReserved(s: string): (r: string)
    ensures |r| == |s|
    ensures forall i :: 0 <= i < |s| ==> r[i] == SafeChar(s[i])
    ensures NoReserved(r)
  {
    if |s| == 0 then [] else [SafeChar(s[0])] + ReplaceReserved(s[1..])
  }

  /** The sanitised name: no reserved character, no white space at either end,
      never longer than the input, and a name that is already clean comes back as is. */
  function Sanitize(name: string): (r: string)
    ensures NoReserved(r)
    ensures Trimmed(r)
    ensures |r| <= |name|
    ensures IsClean(name) ==> r == name
  {
    var replaced := ReplaceReserved(name);
    var r := Strip(replaced);
    assert IsClean(name) ==> replaced == name;
    r
  }

  /** Sanitising twice is sanitising once. */
  lemma SanitizeIdempotent(name: string)
    ensures Sanitize(Sanitize(name)) == Sanitize(name)
  {
  }

  /** The fixed points of the sanitiser are exactly the clean names. */
  lemma SanitizeFixedPoints(name: string)
    ensures Sanitize(name) == name <==> IsClean(name)
  {
  }

  /** The sanitised name in terms of the input alone: trimming commutes with the
      substitution, so sanitising is trimming `name` and then substituting each
      remaining character. */
  lemma SanitizeCharacterization(name: string)
    ensures Sanitize(name) == ReplaceReserved(Strip(name))
  {
    if LeadingSpaces(name) < |name| {
      CommuteOnSlice(name);
    } else {
      LeadingSpacesOfReplaced(name);
      assert Strip(name) == [];
    }
  }

  /** The case with some non-space character: both sides have one length and agree
      character by character. */
  lemma CommuteOnSlice(name: string)
    requires LeadingSpaces(name) < |name|
    ensures Strip(ReplaceReserved(name)) == ReplaceReserved(Strip(name))
  {
    LeadingSpacesOfReplaced(name);
    TrailingSpacesOfReplaced(name);
    var replaced := ReplaceReserved(name);
    var stripped := Strip(name);
    SameCharacters(name, replaced, Strip(replaced), stripped, ReplaceReserved(stripped), LeadingSpaces(name));
  }

  /** Substituting before or after cutting the run at `a` out of `name` gives the
      same characters, stated over plain values. */
  lemma SameCharacters(name: string, replaced: string, lhs: string, stripped: string, rhs: string, a: nat)
    requires |replaced| == |name|
    requires forall i :: 0 <= i < |name| ==> replaced[i] == SafeChar(name[i])
    requires RunAt(replaced, lhs, a) && RunAt(name, stripped, a)
    requires |lhs| == |stripped| == |rhs|
    requires forall i :: 0 <= i < |rhs| ==> rhs[i] == SafeChar(stripped[i])
    ensures lhs == rhs
  {
    forall k | 0 <= k < |lhs|
      ensures lhs[k] == rhs[k]
    {
      assert lhs[k] == replaced[a + k];
    }
  }

  lemma {:induction false} TrailingSpacesOfReplaced(name: string)
    ensures TrailingSpaces(ReplaceReserved(name)) == TrailingSpaces(name)
  {
    if |name| > 0 {
      var n := |name| - 1;
      var replaced := ReplaceReserved(name);
      assert replaced[..n] == ReplaceReserved(name[..n]) by {
        assert forall k :: 0 <= k < n ==> replaced[..n][k] == SafeChar(name[..n][k]);
      }
      TrailingSpacesOfReplaced(name[..n]);
    }
  }

  /** Substitution does not move the first non-space character. */
  lemma {:induction false} LeadingSpacesOfReplaced(name: string)
    ensures LeadingSpaces(ReplaceReserved(name)) == LeadingSpaces(name)
  {
    if |name| > 0 {
      var replaced := ReplaceReserved(name);
      assert replaced[1..] == ReplaceReserved(name[1..]) by {
        assert forall k :: 0 <= k < |name| - 1 ==> replaced[1..][k] == SafeChar(name[1..][k]);
      }
      LeadingSpacesOfReplaced(name[1..]);
    }
  }
}
