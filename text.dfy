/**
  * The few JavaScript string operations the calculator relies on, over
  * strings as sequences of characters: `trim`, `slice(0, -k)` and the
  * test `!isNaN(parseFloat(s))`.
  */
module Text {

  /** The ECMAScript white space and line terminator characters that
      `String.prototype.trim` and `parseFloat` skip. */
  const Whitespace: set<char> := {
    '\t', '\n', '\U{000B}', '\U{000C}', '\r', ' ', '\U{00A0}', '\U{1680}',
    '\U{2000}', '\U{2001}', '\U{2002}', '\U{2003}', '\U{2004}', '\U{2005}',
    '\U{2006}', '\U{2007}', '\U{2008}', '\U{2009}', '\U{200A}',
    '\U{2028}', '\U{2029}', '\U{202F}', '\U{205F}', '\U{3000}', '\U{FEFF}'
  }

  predicate IsWhitespace(c: char)
  {
    c in Whitespace
  }

  predicate IsDigit(c: char)
  {
    '0' <= c <= '9'
  }

  /** The first position at or after `i` that does not hold white space,
      or the length of `s` when there is none. */
  function LeadFrom(s: string, i: nat): (r: nat)
    requires i <= |s|
    ensures i <= r <= |s|
    ensures forall k :: i <= k < r ==> IsWhitespace(s[k])
    ensures r == |s| || !IsWhitespace(s[r])
    decreases |s| - i
  {
    if i < |s| && IsWhitespace(s[i]) then LeadFrom(s, i + 1) else i
  }

  /** The end of `s[lo..j]` once the white space at its end is gone. */
  function TrailEnd(s: string, lo: nat, j: nat): (r: nat)
    requires lo <= j <= |s|
    ensures lo <= r <= j
    ensures forall k :: r <= k < j ==> IsWhitespace(s[k])
    ensures r == lo || !IsWhitespace(s[r - 1])
  {
    if lo < j && IsWhitespace(s[j - 1]) then TrailEnd(s, lo, j - 1) else j
  }

  /** How many white space characters `s` opens with. */
  function LeadingSpace(s: string): (n: nat)
    ensures n <= |s|
    ensures forall k :: 0 <= k < n ==> IsWhitespace(s[k])
    ensures n == |s| || !IsWhitespace(s[n])
  {
    LeadFrom(s, 0)
  }

  /** `s.trim()`: the slice of `s` that is left once the white space at
      both ends is gone; it neither starts nor ends with white space. */
  function Trim(s: string): (r: string)
    ensures LeadingSpace(s) + |r| <= |s|
    ensures r == s[LeadingSpace(s)..LeadingSpace(s) + |r|]
    ensures forall k :: 0 <= k < LeadingSpace(s) ==> IsWhitespace(s[k])
    ensures forall k :: LeadingSpace(s) + |r| <= k < |s| ==> IsWhitespace(s[k])
    ensures r == [] || (!IsWhitespace(r[0]) && !IsWhitespace(r[|r| - 1]))
  {
    var i := LeadingSpace(s);
    s[i..TrailEnd(s, i, |s|)]
  }

  /** Trimming leaves alone a string with no white space at its ends. */
  lemma TrimKeepsBareText(s: string)
    requires s != [] && !IsWhitespace(s[0]) && !IsWhitespace(s[|s| - 1])
    ensures Trim(s) == s
  {
    assert LeadingSpace(s) == 0;
    assert TrailEnd(s, 0, |s|) == |s|;
  }

  /** Trimming `s + " "`, for `s` with no white space at its ends, gives `s`. */
  lemma TrimDropsOneSpace(s: string)
    requires s != [] && !IsWhitespace(s[0]) && !IsWhitespace(s[|s| - 1])
    ensures Trim(s + " ") == s
  {
    var t := s + " ";
    assert LeadingSpace(t) == 0;
    assert TrailEnd(t, 0, |t|) == TrailEnd(t, 0, |s|) == |s|;
    assert t[..|s|] == s;
  }

  /** `s.slice(0, -k)` for `k >= 1`: `s` without its last `k` characters,
      or the empty string when `s` is shorter than that. */
  function SliceEnd(s: string, k: nat): (r: string)
    requires k >= 1
    ensures |s| >= k ==> |r| == |s| - k && r + s[|s| - k..] == s
    ensures |s| < k ==> r == []
  {
    if |s| < k then [] else s[..|s| - k]
  }

  /** `s.slice(0, -1)`, which is also what `s.substring(0, s.length - 1)` gives. */
  function DropLast(s: string): (r: string)
    ensures s == [] ==> r == []
    ensures s != [] ==> r + [s[|s| - 1]] == s
  {
    SliceEnd(s, 1)
  }

  predicate StartsWith(s: string, prefix: string)
  {
    |prefix| <= |s| && s[..|prefix|] == prefix
  }

  /** `!isNaN(parseFloat(s))`: after leading white space and an optional
      sign, `s` begins with `Infinity`, with a digit, or with a dot followed
      by a digit, so that some prefix of it is a decimal literal. */
  predicate ParsesAsNumber(s: string)
    ensures ParsesAsNumber(s) ==> LeadingSpace(s) < |s| && !IsWhitespace(s[LeadingSpace(s)])
  {
    var t := s[LeadingSpace(s)..];
    var u := if |t| > 0 && (t[0] == '+' || t[0] == '-') then t[1..] else t;
    StartsWith(u, "Infinity") ||
    (|u| > 0 && IsDigit(u[0])) ||
    (|u| > 1 && u[0] == '.' && IsDigit(u[1]))
  }

  /** A string that opens with a digit, or with a dot and a digit, parses;
      so does every operand typed on the keypad that has a digit in one of
      its first two places. */
  lemma LeadingDigitParses(s: string)
    requires (|s| > 0 && IsDigit(s[0])) || (|s| > 1 && s[0] == '.' && IsDigit(s[1]))
    ensures ParsesAsNumber(s)
  {
    assert !IsWhitespace(s[0]);
    assert LeadingSpace(s) == 0;
    assert s[0] != '+' && s[0] != '-';
  }

  /** Neither the empty string nor a lone dot parses as a number. */
  lemma EmptyAndDotDoNotParse()
    ensures !ParsesAsNumber("") && !ParsesAsNumber(".")
  {
    assert LeadingSpace(".") == 0;
  }
}
