/**
  The three string operations the client applies to user input and answers:
  Python's `str.strip()` (to reject blank input), `str.lower()` (restricted to
  ASCII letters) and the substring test `needle in hay`.
 */
module Text {

  /** The characters for which Python's `str.isspace()` holds, i.e. what `str.strip()` removes. */
  predicate IsSpace(c: char) {
    || ('\t' <= c <= '\r')                // tab, line feed, vertical tab, form feed, carriage return
    || ('\U{1C}' <= c <= '\U{1F}')        // file, group, record and unit separators
    || c == ' ' || c == '\U{85}' || c == '\U{A0}' || c == '\U{1680}'
    || ('\U{2000}' <= c <= '\U{200A}')
    || c == '\U{2028}' || c == '\U{2029}' || c == '\U{202F}' || c == '\U{205F}' || c == '\U{3000}'
  }

  /** Every character is white space (the empty string included). */
  predicate Blank(s: string) {
    forall i :: 0 <= i < |s| ==> IsSpace(s[i])
  }

  /** How many white-space characters `s.lstrip()` removes. */
  function LeadingSpaces(s: string): (k: nat)
    ensures k <= |s|
    ensures forall i :: 0 <= i < k ==> IsSpace(s[i])
    ensures k < |s| ==> !IsSpace(s[k])
  {
    if s == [] || !IsSpace(s[0]) then 0 else 1 + LeadingSpaces(s[1..])
  }

  /** How many white-space characters `s.rstrip()` removes. */
  function TrailingSpaces(s: string): (k: nat)
    ensures k <= |s|
    ensures forall i :: |s| - k <= i < |s| ==> IsSpace(s[i])
    ensures k < |s| ==> !IsSpace(s[|s| - 1 - k])
  {
    if s == [] || !IsSpace(s[|s| - 1]) then 0 else 1 + TrailingSpaces(s[..|s| - 1])
  }

  /** `s.strip()`: the middle of `s` left after removing white space at both ends. */
  function Strip(s: string): (r: string)
    ensures r == [] || (!IsSpace(r[0]) && !IsSpace(r[|r| - 1]))
    ensures LeadingSpaces(s) + |r| <= |s|
    ensures r == s[LeadingSpaces(s)..LeadingSpaces(s) + |r|]
    ensures Blank(s[..LeadingSpaces(s)]) && Blank(s[LeadingSpaces(s) + |r|..])
  {
    var l := LeadingSpaces(s);
    var t := s[l..];
    var k := TrailingSpaces(t);
    var e := l + |t| - k;
    assert Blank(s[..l]) by {
      forall i | 0 <= i < l ensures IsSpace(s[..l][i]) {
        assert s[..l][i] == s[i];
      }
    }
    assert Blank(s[e..]) by {
      forall i | 0 <= i < |s| - e ensures IsSpace(s[e..][i]) {
        assert s[e..][i] == t[|t| - k + i];
      }
    }
    assert t[..|t| - k] == s[l..e];
    t[..|t| - k]
  }

  /** `s.strip()` is falsy in Python exactly when `s` consists of white space only. */
  lemma StripEmptyIffBlank(s: string)
    ensures Strip(s) == [] <==> Blank(s)
  {
  }

  /** Python's `str.lower()` on ASCII letters; every other character is kept. */
  function LowerChar(c: char): char {
    if 'A' <= c <= 'Z' then (c as int + 32) as char else c
  }

  function Lower(s: string): (r: string)
    ensures |r| == |s|
    ensures forall i :: 0 <= i < |r| ==> !('A' <= r[i] <= 'Z')
    ensures forall i :: 0 <= i < |s| ==>
      if 'A' <= s[i] <= 'Z' then r[i] as int == s[i] as int + 32 else r[i] == s[i]
  {
    seq(|s|, i requires 0 <= i < |s| => LowerChar(s[i]))
  }

  /** Lowering twice is lowering once. */
  lemma LowerIdempotent(s: string)
    ensures Lower(Lower(s)) == Lower(s)
  {
  }

  /** `needle` occurs in `hay` starting at position `i`. */
  predicate OccursAt(needle: string, hay: string, i: nat) {
    i <= |hay| && needle <= hay[i..]
  }

  /** `needle in hay`, checked position by position. */
  function Contains(hay: string, needle: string): (b: bool)
    ensures b ==> |needle| <= |hay|
    ensures needle <= hay ==> b
    decreases |hay|
  {
    |needle| <= |hay| && (needle <= hay || Contains(hay[1..], needle))
  }

  /** The position-by-position test holds exactly when the needle occurs somewhere. */
  lemma {:induction false} ContainsIffOccurs(hay: string, needle: string)
    ensures Contains(hay, needle) <==> exists i: nat :: OccursAt(needle, hay, i)
    decreases |hay|
  {
    if |needle| > |hay| {
      // no position leaves room for the needle
    } else if needle <= hay {
      assert OccursAt(needle, hay, 0);
    } else {
      ContainsIffOccurs(hay[1..], needle);
      forall i: nat | OccursAt(needle, hay[1..], i)
        ensures OccursAt(needle, hay, i + 1)
      {
        assert hay[1..][i..] == hay[i + 1..];
      }
      forall i: nat | OccursAt(needle, hay, i)
        ensures i >= 1 && OccursAt(needle, hay[1..], i - 1)
      {
        assert i != 0;
        assert hay[1..][i - 1..] == hay[i..];
      }
    }
  }
}
