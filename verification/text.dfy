/** The few pieces of Go's `strings` package and pointer idioms the core relies
    on. Strings are sequences of Unicode code points. */
module Text {

  import opened Wrappers

  /** The code points Go's `unicode.IsSpace` accepts: the Latin-1 spaces
      '\t', '\n', '\v', '\f', '\r', ' ', U+0085 and U+00A0, and the other
      code points with the Unicode White_Space property. */
  const SpaceCodePoints: set<int> :=
    {9, 10, 11, 12, 13, 32, 0x85, 0xA0, 0x1680,
     0x2000, 0x2001, 0x2002, 0x2003, 0x2004, 0x2005, 0x2006, 0x2007, 0x2008, 0x2009, 0x200A,
     0x2028, 0x2029, 0x202F, 0x205F, 0x3000}

  predicate IsSpace(c: char) {
    c as int in SpaceCodePoints
  }

  /** Every code point of s in [lo, hi) is white space. */
  ghost predicate SpaceBetween(s: string, lo: int, hi: int)
    requires 0 <= lo && hi <= |s|
  {
    forall i :: lo <= i < hi ==> IsSpace(s[i])
  }

  /** A string is blank when it is white space only. By the contract of
      `TrimSpace`, this is exactly Go's `strings.TrimSpace(s) == ""`. */
  predicate Blank(s: string) {
    |s| == 0 || (IsSpace(s[0]) && Blank(s[1..]))
  }

  /** The length of the white-space prefix. */
  function LeadingSpace(s: string): (n: nat)
    ensures n <= |s| && SpaceBetween(s, 0, n)
    ensures n < |s| ==> !IsSpace(s[n])
    ensures n == |s| <==> Blank(s)
  {
    if |s| > 0 && IsSpace(s[0]) then
      var n := 1 + LeadingSpace(s[1..]);
      assert forall i :: 1 <= i < n ==> s[i] == s[1..][i - 1];
      n
    else 0
  }

  /** Where the white-space suffix starts. */
  function TrailingStart(s: string): (m: nat)
    ensures m <= |s| && SpaceBetween(s, m, |s|)
    ensures m > 0 ==> !IsSpace(s[m - 1])
  {
    if |s| > 0 && IsSpace(s[|s| - 1]) then
      var m := TrailingStart(s[..|s| - 1]);
      assert forall i :: m <= i < |s| - 1 ==> s[i] == s[..|s| - 1][i];
      m
    else |s|
  }

  /** Go's `strings.TrimSpace`: the infix left once the white space at both
      ends is dropped. */
  function TrimSpace(s: string): (r: string)
    ensures exists k :: 0 <= k && k + |r| <= |s| && r == s[k..k + |r|] &&
                        SpaceBetween(s, 0, k) && SpaceBetween(s, k + |r|, |s|)
    ensures |r| > 0 ==> !IsSpace(r[0]) && !IsSpace(r[|r| - 1])
    ensures r == [] <==> Blank(s)
  {
    var k := LeadingSpace(s);
    var m := TrailingStart(s);
    if m <= k then
      assert SpaceBetween(s, k, |s|);
      []
    else
      s[k..m]
  }

  /** A string that neither starts nor ends with white space is its own
      trimmed form. */
  lemma TrimSpaceKeepsTrimmed(s: string)
    requires |s| > 0 ==> !IsSpace(s[0]) && !IsSpace(s[|s| - 1])
    ensures TrimSpace(s) == s
  {
    if |s| > 0 {
      assert LeadingSpace(s) == 0;
      assert TrailingStart(s) == |s|;
    }
  }

  /** Trimming twice is trimming once. */
  lemma TrimSpaceIdempotent(s: string)
    ensures TrimSpace(TrimSpace(s)) == TrimSpace(s)
  {
    TrimSpaceKeepsTrimmed(TrimSpace(s));
  }

  /** A concatenation is blank iff both parts are. */
  lemma {:induction false} BlankConcat(a: string, b: string)
    ensures Blank(a + b) <==> Blank(a) && Blank(b)
  {
    if |a| == 0 {
      assert a + b == b;
    } else {
      assert (a + b)[0] == a[0];
      assert (a + b)[1..] == a[1..] + b;
      BlankConcat(a[1..], b);
    }
  }

  /** Dereferences an optional string, reading nil as "". */
  function ValueOrEmpty(p: Option<string>): (r: string)
    ensures p.None? ==> r == ""
    ensures p.Some? ==> r == p.value
  {
    match p
    case None => ""
    case Some(s) => s
  }

  /** Takes the address of a string, except that "" becomes nil. */
  function StrPtrOrNil(s: string): (r: Option<string>)
    ensures r.None? <==> s == ""
    ensures r.Some? ==> r.value == s
  {
    if s == "" then None else Some(s)
  }

  /** `StrPtrOrNil` loses nothing that `ValueOrEmpty` can read back, and the
      converse round trip is exact for every pointer except one to "". */
  lemma StrPtrRoundTrip(s: string, p: Option<string>)
    ensures ValueOrEmpty(StrPtrOrNil(s)) == s
    ensures StrPtrOrNil(ValueOrEmpty(p)) == p <==> p != Some("")
  {
  }
}
