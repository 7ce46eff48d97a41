/**
  Python's `str.strip()` with no argument: remove the leading and trailing
  characters for which `str.isspace()` holds.
*/
module Text {

  /** The code points Python's `str.isspace()` accepts. */
  predicate IsSpace(c: char) {
    || ('\t' <= c <= '\r')            // tab, line feed, vertical tab, form feed, carriage return
    || ('\U{1c}' <= c <= '\U{1f}')    // file, group, record and unit separators
    || c == ' ' || c == '\U{85}' || c == '\U{a0}' || c == '\U{1680}'
    || ('\U{2000}' <= c <= '\U{200a}')
    || c == '\U{2028}' || c == '\U{2029}' || c == '\U{202f}' || c == '\U{205f}' || c == '\U{3000}'
  }

  predicate AllSpace(s: string) {
    forall i :: 0 <= i < |s| ==> IsSpace(s[i])
  }

  /**
    `str.strip()`: drop a whitespace character from the front or the back until
    neither end is whitespace.
  */
  function Strip(s: string): (r: string)
    ensures |r| <= |s|
    ensures r == [] || (!IsSpace(r[0]) && !IsSpace(r[|r| - 1]))
  {
    if s != [] && IsSpace(s[0]) then Strip(s[1..])
    else if s != [] && IsSpace(s[|s| - 1]) then Strip(s[..|s| - 1])
    else s
  }

  /** Every character of `s` between `lo` and `hi` is whitespace. */
  predicate SpaceBetween(s: string, lo: int, hi: int)
    requires 0 <= lo && hi <= |s|
  {
    forall i :: lo <= i < hi ==> IsSpace(s[i])
  }

  /**
    The strip of `s` is a slice `s[lead..lead + |Strip(s)|]`, and everything cut
    off on either side is whitespace.
  */
  lemma {:induction false} StripIsSlice(s: string) returns (lead: nat)
    ensures lead + |Strip(s)| <= |s| && Strip(s) == s[lead..lead + |Strip(s)|]
    ensures SpaceBetween(s, 0, lead) && SpaceBetween(s, lead + |Strip(s)|, |s|)
  {
    if s != [] && IsSpace(s[0]) {
      var l := StripIsSlice(s[1..]);
      SliceAfterFront(s, l, |Strip(s[1..])|);
      lead := l + 1;
    } else if s != [] && IsSpace(s[|s| - 1]) {
      lead := StripIsSlice(s[..|s| - 1]);
      SliceBeforeBack(s, lead, |Strip(s[..|s| - 1])|);
    } else {
      lead := 0;
    }
  }

  /** A slice of `s[1..]` with whitespace around it, seen in `s` when `s[0]` is whitespace. */
  lemma SliceAfterFront(s: string, l: nat, n: nat)
    requires s != [] && IsSpace(s[0]) && l + n <= |s| - 1
    requires SpaceBetween(s[1..], 0, l) && SpaceBetween(s[1..], l + n, |s| - 1)
    ensures s[1..][l..l + n] == s[l + 1..l + 1 + n]
    ensures SpaceBetween(s, 0, l + 1) && SpaceBetween(s, l + 1 + n, |s|)
  {
    var t := s[1..];
    forall i | 0 <= i < l + 1 ensures IsSpace(s[i]) {
      if i > 0 { assert s[i] == t[i - 1]; }
    }
    forall i | l + 1 + n <= i < |s| ensures IsSpace(s[i]) {
      assert s[i] == t[i - 1];
    }
  }

  /** A slice of `s[..|s| - 1]` with whitespace around it, seen in `s` when its last character is whitespace. */
  lemma SliceBeforeBack(s: string, l: nat, n: nat)
    requires s != [] && IsSpace(s[|s| - 1]) && l + n <= |s| - 1
    requires SpaceBetween(s[..|s| - 1], 0, l) && SpaceBetween(s[..|s| - 1], l + n, |s| - 1)
    ensures s[..|s| - 1][l..l + n] == s[l..l + n]
    ensures SpaceBetween(s, 0, l) && SpaceBetween(s, l + n, |s|)
  {
    var t := s[..|s| - 1];
    forall i | 0 <= i < l ensures IsSpace(s[i]) {
      assert s[i] == t[i];
    }
    forall i | l + n <= i < |s| ensures IsSpace(s[i]) {
      if i < |s| - 1 { assert s[i] == t[i]; }
    }
  }

  /** A string with no whitespace at either end is its own strip. */
  lemma StripFixed(s: string)
    requires s == [] || (!IsSpace(s[0]) && !IsSpace(s[|s| - 1]))
    ensures Strip(s) == s
  {
  }

  /** Stripping twice is stripping once. */
  lemma StripIdempotent(s: string)
    ensures Strip(Strip(s)) == Strip(s)
  {
    StripFixed(Strip(s));
  }

  /** The strip of `s` is empty exactly when `s` is all whitespace. */
  lemma StripEmptyIff(s: string)
    ensures Strip(s) == [] <==> AllSpace(s)
  {
    if AllSpace(s) {
      AllSpaceStripsToEmpty(s);
    }
    if Strip(s) == [] {
      var lead := StripIsSlice(s);
      assert SpaceBetween(s, 0, lead) && SpaceBetween(s, lead, |s|);
    }
  }

  lemma {:induction false} AllSpaceStripsToEmpty(s: string)
    requires AllSpace(s)
    ensures Strip(s) == []
  {
    if s != [] {
      AllSpaceStripsToEmpty(s[1..]);
    }
  }
}
