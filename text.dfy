/**
 * The normalisation `detect_intent` applies before classifying a message:
 * Python's `text.lower().strip()`.
 */
module TextNormalization {
  /** Python's `str.isspace`: the characters `strip()` removes by default. */
  predicate IsSpace(c: char) {
    || '\t' <= c <= '\r'
    || '\U{1C}' <= c <= ' '
    || c == '\U{85}' || c == '\U{A0}' || c == '\U{1680}'
    || '\U{2000}' <= c <= '\U{200A}'
    || c == '\U{2028}' || c == '\U{2029}' || c == '\U{202F}' || c == '\U{205F}' || c == '\U{3000}'
  }

  predicate IsAsciiUpper(c: char) { 'A' <= c <= 'Z' }

  function LowerChar(c: char): (d: char)
    ensures !IsAsciiUpper(d)
    ensures IsSpace(d) <==> IsSpace(c)
    ensures !IsAsciiUpper(c) ==> d == c
    ensures IsAsciiUpper(c) ==> 'a' <= d <= 'z' && d as int - 'a' as int == c as int - 'A' as int
  {
    if IsAsciiUpper(c) then (c as int - 'A' as int + 'a' as int) as char else c
  }

  /** `str.lower()` on the ASCII letters. */
  function Lower(s: string): (r: string)
    ensures |r| == |s|
    ensures forall k :: 0 <= k < |s| ==> r[k] == LowerChar(s[k])
  {
    seq(|s|, k requires 0 <= k < |s| => LowerChar(s[k]))
  }

  /** `str.lstrip()`: what is dropped is whitespace, and what is kept does not
      start with whitespace. */
  function StripStart(s: string): (r: string)
    ensures |r| <= |s| && r == s[|s| - |r|..]
    ensures forall k :: 0 <= k < |s| - |r| ==> IsSpace(s[k])
    ensures r != [] ==> !IsSpace(r[0])
  {
    if |s| > 0 && IsSpace(s[0]) then StripStart(s[1..]) else s
  }

  /** `str.rstrip()`: what is dropped is whitespace, and what is kept does not
      end with whitespace. */
  function StripEnd(s: string): (r: string)
    ensures |r| <= |s| && r == s[..|r|]
    ensures forall k :: |r| <= k < |s| ==> IsSpace(s[k])
    ensures r != [] ==> !IsSpace(r[|r| - 1])
  {
    if |s| > 0 && IsSpace(s[|s| - 1]) then StripEnd(s[..|s| - 1]) else s
  }

  /** Number of whitespace characters `strip()` removes from the front of `s`. */
  function Lead(s: string): (n: nat)
    ensures n <= |s|
  {
    |s| - |StripStart(s)|
  }

  /** `str.strip()`: a slice of `s` that neither starts nor ends with
      whitespace; everything around it is whitespace. */
  function Strip(s: string): (r: string)
    ensures Lead(s) + |r| <= |s| && r == s[Lead(s)..Lead(s) + |r|]
    ensures forall k :: 0 <= k < Lead(s) ==> IsSpace(s[k])
    ensures forall k :: Lead(s) + |r| <= k < |s| ==> IsSpace(s[k])
    ensures r != [] ==> !IsSpace(r[0]) && !IsSpace(r[|r| - 1])
  {
    StripEndOfSuffix(s, Lead(s), StripStart(s));
    StripEnd(StripStart(s))
  }

  /** Right-stripping a suffix `t` of `s` that starts at `a` gives a slice of
      `s` starting at `a`, followed in `s` only by whitespace. */
  lemma StripEndOfSuffix(s: string, a: nat, t: string)
    requires a <= |s| && t == s[a..]
    ensures a + |StripEnd(t)| <= |s| && StripEnd(t) == s[a..a + |StripEnd(t)|]
    ensures forall k :: a + |StripEnd(t)| <= k < |s| ==> IsSpace(s[k])
  {
    var r := StripEnd(t);
    forall k | a + |r| <= k < |s| ensures IsSpace(s[k]) {
      assert s[k] == t[k - a];
    }
  }

  /** Only an all-whitespace text strips to nothing. */
  lemma StripEmpty(s: string)
    ensures Strip(s) == [] <==> forall k :: 0 <= k < |s| ==> IsSpace(s[k])
  {
  }

  /** Lowering a prefix is taking a prefix of the lowered text. */
  lemma LowerPrefix(s: string, n: nat)
    requires n <= |s|
    ensures Lower(s[..n]) == Lower(s)[..n]
  {
  }

  /** Left-stripping commutes with lowering, since lowering keeps whitespace
      where it is. */
  lemma {:induction false} LowerStripStart(t: string)
    ensures StripStart(Lower(t)) == Lower(StripStart(t))
  {
    if |t| > 0 {
      assert Lower(t)[0] == LowerChar(t[0]);
      if IsSpace(t[0]) {
        assert Lower(t)[1..] == Lower(t[1..]);
        LowerStripStart(t[1..]);
      }
    }
  }

  /** Right-stripping commutes with lowering. */
  lemma {:induction false} LowerStripEnd(t: string)
    ensures StripEnd(Lower(t)) == Lower(StripEnd(t))
  {
    if |t| > 0 {
      assert Lower(t)[|t| - 1] == LowerChar(t[|t| - 1]);
      if IsSpace(t[|t| - 1]) {
        LowerPrefix(t, |t| - 1);
        LowerStripEnd(t[..|t| - 1]);
      }
    }
  }

  /** `text.lower().strip()` as done at the top of `detect_intent`: the same
      as stripping the text first and lowering what is left, so the result is
      the text without its surrounding whitespace, lowered. */
  function Normalize(text: string): (r: string)
    ensures r == Lower(Strip(text))
  {
    LowerStripStart(text);
    LowerStripEnd(StripStart(text));
    Strip(Lower(text))
  }

  /** Lowering leaves no ASCII capitals and keeps whitespace at the ends. */
  lemma LowerKeepsEnds(t: string)
    ensures var r := Lower(t);
      && (forall k :: 0 <= k < |r| ==> !IsAsciiUpper(r[k]))
      && (r != [] ==> (IsSpace(r[0]) <==> IsSpace(t[0])) && (IsSpace(r[|r| - 1]) <==> IsSpace(t[|t| - 1])))
  {
  }

  /** The normalised text has no ASCII capitals and no whitespace at either
      end, and is no longer than the text. */
  lemma NormalizeShape(text: string)
    ensures var r := Normalize(text);
      && |r| <= |text|
      && (forall k :: 0 <= k < |r| ==> !IsAsciiUpper(r[k]))
      && (r != [] ==> !IsSpace(r[0]) && !IsSpace(r[|r| - 1]))
  {
    LowerKeepsEnds(Strip(text));
  }

  /** Stripping a stripped text changes nothing. */
  lemma StripIdempotent(s: string)
    ensures Strip(Strip(s)) == Strip(s)
  {
  }

  /** Lowering a text without ASCII capitals changes nothing. */
  lemma LowerOfLowered(s: string)
    requires forall k :: 0 <= k < |s| ==> !IsAsciiUpper(s[k])
    ensures Lower(s) == s
  {
  }

  /** Normalising a normalised text changes nothing, so the classifier sees
      the same input whether or not the caller normalised first. */
  lemma NormalizeIdempotent(text: string)
    ensures Normalize(Normalize(text)) == Normalize(text)
  {
    var r := Normalize(text);
    NormalizeShape(text);
    assert StripStart(r) == r;
    assert StripEnd(r) == r;
    LowerOfLowered(r);
  }

  /** One leading whitespace character does not change the normalised text. */
  lemma {:induction false} NormalizeIgnoresLeadingSpace(c: char, text: string)
    requires IsSpace(c)
    ensures Normalize([c] + text) == Normalize(text)
  {
    assert Lower([c] + text) == [LowerChar(c)] + Lower(text);
    assert ([LowerChar(c)] + Lower(text))[1..] == Lower(text);
  }
}
