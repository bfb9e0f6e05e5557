/**
 * The JavaScript string built-ins the renderer relies on, over `seq<char>`:
 * `String.prototype.trim`, `split('T')[0]` on an ISO timestamp,
 * `String(n)` for a non-negative integer and `padStart(2, '0')`.
 */
module Strings {

  /** The characters `trim` removes: ECMAScript WhiteSpace and LineTerminator code points. */
  predicate IsJsWhitespace(c: char) {
    c == '\t' || c == '\U{000B}' || c == '\U{000C}' || c == ' ' || c == '\U{00A0}' || c == '\U{FEFF}'
    || c == '\U{1680}' || ('\U{2000}' <= c <= '\U{200A}') || c == '\U{202F}' || c == '\U{205F}'
    || c == '\U{3000}' || c == '\n' || c == '\r' || c == '\U{2028}' || c == '\U{2029}'
  }

  ghost predicate AllWhitespace(s: string) {
    forall k :: 0 <= k < |s| ==> IsJsWhitespace(s[k])
  }

  /** The end of the run of whitespace that starts at `i`. */
  function BlankRunEnd(s: string, i: nat): (j: nat)
    requires i <= |s|
    ensures i <= j <= |s|
    ensures forall k :: i <= k < j ==> IsJsWhitespace(s[k])
    ensures j < |s| ==> !IsJsWhitespace(s[j])
    decreases |s| - i
  {
    if i == |s| || !IsJsWhitespace(s[i]) then i else BlankRunEnd(s, i + 1)
  }

  /** The start of the run of whitespace that ends at `j`, looking no further left than `lo`. */
  function BlankRunStart(s: string, lo: nat, j: nat): (i: nat)
    requires lo <= j <= |s|
    ensures lo <= i <= j
    ensures forall k :: i <= k < j ==> IsJsWhitespace(s[k])
    ensures lo < i ==> !IsJsWhitespace(s[i - 1])
    decreases j
  {
    if j == lo || !IsJsWhitespace(s[j - 1]) then j else BlankRunStart(s, lo, j - 1)
  }

  /**
   * `s.trim()`: the slice left after removing the whitespace at both ends. It is
   * empty exactly when `s` is blank, and otherwise neither of its ends is whitespace.
   */
  function Trim(s: string): (r: string)
    ensures r == [] <==> AllWhitespace(s)
    ensures r != [] ==> !IsJsWhitespace(r[0]) && !IsJsWhitespace(r[|r| - 1])
  {
    var lo := BlankRunEnd(s, 0);
    var hi := BlankRunStart(s, lo, |s|);
    assert hi > lo ==> s[lo..hi][0] == s[lo] && s[lo..hi][hi - lo - 1] == s[hi - 1];
    s[lo..hi]
  }

  /** What `trim` removes is whitespace: the result is a slice of `s` with only whitespace around it. */
  lemma TrimIsSlice(s: string)
    ensures exists lo, hi ::
              0 <= lo <= hi <= |s| && Trim(s) == s[lo..hi] &&
              (forall k :: 0 <= k < |s| && !(lo <= k < hi) ==> IsJsWhitespace(s[k]))
  {
    var lo := BlankRunEnd(s, 0);
    var hi := BlankRunStart(s, lo, |s|);
    assert Trim(s) == s[lo..hi];
  }

  /** Trimming twice is trimming once: a trimmed name is stored as it is. */
  lemma TrimIdempotent(s: string)
    ensures Trim(Trim(s)) == Trim(s)
  {
    var r := Trim(s);
    if r != [] {
      assert BlankRunEnd(r, 0) == 0;
      assert BlankRunStart(r, 0, |r|) == |r|;
      assert r[0..|r|] == r;
    }
  }

  /** `s.split('T')[0]`: the text before the first 'T', or all of `s` when it has none. */
  function DatePart(s: string): (r: string)
    ensures r <= s
    ensures 'T' !in r
    ensures |r| < |s| ==> s[|r|] == 'T'
  {
    if s == [] || s[0] == 'T' then [] else [s[0]] + DatePart(s[1..])
  }

  predicate IsDigit(c: char) {
    '0' <= c <= '9'
  }

  predicate AllDigits(s: string) {
    forall k :: 0 <= k < |s| ==> IsDigit(s[k])
  }

  /** The number a string of decimal digits denotes (the empty string denotes 0). */
  function DigitsValue(s: string): int
  {
    if s == [] then 0 else DigitsValue(s[..|s| - 1]) * 10 + (s[|s| - 1] as int - '0' as int)
  }

  function DigitChar(d: nat): (c: char)
    requires d < 10
    ensures IsDigit(c) && c as int - '0' as int == d
  {
    ('0' as int + d) as char
  }

  /** `String(n)`: the shortest decimal numeral of `n`, which reads back as `n`. */
  function Decimal(n: nat): (r: string)
    ensures 1 <= |r| && AllDigits(r) && DigitsValue(r) == n
    ensures |r| > 1 ==> r[0] != '0'
    ensures n < 10 <==> |r| == 1
    ensures n < 100 ==> |r| <= 2
  {
    if n < 10 then [DigitChar(n)]
    else
      var front := Decimal(n / 10);
      var r := front + [DigitChar(n % 10)];
      assert r[..|r| - 1] == front;
      r
  }

  /** A leading zero does not change the value of a numeral. */
  lemma {:induction false} LeadingZero(s: string)
    requires AllDigits(s)
    ensures AllDigits(['0'] + s) && DigitsValue(['0'] + s) == DigitsValue(s)
  {
    var z := ['0'] + s;
    if s != [] {
      assert z[..|z| - 1] == ['0'] + s[..|s| - 1];
      LeadingZero(s[..|s| - 1]);
    }
  }

  /**
   * `s.padStart(2, '0')`: `s` itself when it already has two characters, otherwise `s`
   * behind enough zeros to make two; a numeral keeps its value.
   */
  function PadStart2(s: string): (r: string)
    ensures |r| == if |s| >= 2 then |s| else 2
    ensures r[|r| - |s|..] == s
    ensures forall k :: 0 <= k < |r| - |s| ==> r[k] == '0'
    ensures AllDigits(s) ==> AllDigits(r) && DigitsValue(r) == DigitsValue(s)
  {
    if |s| >= 2 then s
    else if |s| == 1 then
      if AllDigits(s) then LeadingZero(s); ['0'] + s else ['0'] + s
    else
      LeadingZero(['0']);
      LeadingZero([]);
      ['0', '0']
  }
}
