/**
 * String helpers standing in for the `java.lang.String` methods the core calls:
 * `startsWith`, `replace(char, char)`, `lastIndexOf`, `Integer.toString`,
 * `trim` and ASCII case folding.
 */
module Text {

  /** `s.startsWith(prefix)`. */
  predicate StartsWith(s: string, prefix: string) {
    |prefix| <= |s| && s[..|prefix|] == prefix
  }

  /** `s.replace(from, to)` for single characters. */
  function ReplaceChar(s: string, from: char, to: char): (r: string)
    ensures |r| == |s|
    ensures forall i :: 0 <= i < |s| ==> r[i] == (if s[i] == from then to else s[i])
  {
    if s == [] then [] else (if s[0] == from then [to] else [s[0]]) + ReplaceChar(s[1..], from, to)
  }

  /**
   * `s.lastIndexOf(c, fromIndex)`: the largest index `i <= fromIndex` with `s[i] == c`,
   * or -1; a negative `fromIndex` finds nothing and one past the end searches from the end.
   */
  function LastIndexOfFrom(s: string, c: char, fromIndex: int): (r: int)
    ensures -1 <= r < |s| && (r == -1 || r <= fromIndex)
    ensures r >= 0 ==> s[r] == c
    ensures forall i :: r < i < |s| && i <= fromIndex ==> s[i] != c
    decreases if fromIndex < |s| then fromIndex + 1 else |s| + 1
  {
    if fromIndex < 0 then -1
    else if fromIndex >= |s| then LastIndexOfFrom(s, c, |s| - 1)
    else if s[fromIndex] == c then fromIndex
    else LastIndexOfFrom(s, c, fromIndex - 1)
  }

  /** `s.lastIndexOf(c)`. */
  function LastIndexOf(s: string, c: char): (r: int)
    ensures -1 <= r < |s|
    ensures r >= 0 ==> s[r] == c
    ensures forall i :: r < i < |s| ==> s[i] != c
  {
    LastIndexOfFrom(s, c, |s| - 1)
  }

  function DigitChar(d: nat): (c: char)
    requires d < 10
    ensures '0' <= c <= '9'
  {
    "0123456789"[d]
  }

  predicate IsDigit(c: char) {
    '0' <= c <= '9'
  }

  /** `Integer.toString(n)` for the non-negative counts the renderer prints. */
  function NatToString(n: nat): (r: string)
    ensures |r| > 0
    ensures forall i :: 0 <= i < |r| ==> IsDigit(r[i])
  {
    if n < 10 then [DigitChar(n)] else NatToString(n / 10) + [DigitChar(n % 10)]
  }

  /** The value of a string of decimal digits: the reading a consumer of the rendered text applies. */
  function DigitsValue(s: string): nat
    requires forall i :: 0 <= i < |s| ==> IsDigit(s[i])
  {
    if s == [] then 0
    else
      assert IsDigit(s[|s| - 1]);
      10 * DigitsValue(s[..|s| - 1]) + (s[|s| - 1] as int - '0' as int)
  }

  /** The printed count reads back as the count. */
  lemma {:induction false} NatToStringRoundTrip(n: nat)
    ensures DigitsValue(NatToString(n)) == n
  {
    if n >= 10 {
      NatToStringRoundTrip(n / 10);
      var s := NatToString(n);
      assert s[..|s| - 1] == NatToString(n / 10);
    }
  }

  function AsciiUpper(c: char): char {
    if 'a' <= c <= 'z' then (c as int - 'a' as int + 'A' as int) as char else c
  }

  function ToUpperAscii(s: string): (r: string)
    ensures |r| == |s|
    ensures forall i :: 0 <= i < |s| ==> r[i] == AsciiUpper(s[i])
  {
    if s == [] then [] else [AsciiUpper(s[0])] + ToUpperAscii(s[1..])
  }

  /** `a.equalsIgnoreCase(b)` restricted to ASCII case folding. */
  predicate EqualsIgnoreCase(a: string, b: string) {
    ToUpperAscii(a) == ToUpperAscii(b)
  }

  /** The index of the first character of `s` from `i` on that is above U+0020, or `|s|`. */
  function SkipSpaces(s: string, i: nat): (k: nat)
    requires i <= |s|
    ensures i <= k <= |s| && (k < |s| ==> s[k] > ' ')
    ensures forall j :: i <= j < k ==> s[j] <= ' '
    decreases |s| - i
  {
    if i == |s| || s[i] > ' ' then i else SkipSpaces(s, i + 1)
  }

  /** The end of `s[lo..hi]` once the characters at or below U+0020 ending it are dropped. */
  function SkipTrailingSpaces(s: string, lo: nat, hi: nat): (k: nat)
    requires lo <= hi <= |s|
    ensures lo <= k <= hi && (k > lo ==> s[k - 1] > ' ')
    ensures forall j :: k <= j < hi ==> s[j] <= ' '
    decreases hi
  {
    if hi == lo || s[hi - 1] > ' ' then hi else SkipTrailingSpaces(s, lo, hi - 1)
  }

  /** `s.trim()`: drop every leading and trailing character at or below U+0020. */
  function Trim(s: string): (r: string)
    ensures |r| <= |s|
    ensures r != [] ==> r[0] > ' ' && r[|r| - 1] > ' '
    ensures (forall j :: 0 <= j < |s| ==> s[j] <= ' ') ==> r == []
    ensures s != [] && s[0] > ' ' && s[|s| - 1] > ' ' ==> r == s
  {
    var start := SkipSpaces(s, 0);
    s[start..SkipTrailingSpaces(s, start, |s|)]
  }
}
