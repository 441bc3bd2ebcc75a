/**
 * Text primitives shared by the model: Python's character classes, prefix and
 * substring tests, `str.strip()`, `str.split(sep)`, `str.lower()` on ASCII, and
 * Python's `int(text)` for decimal text.
 */
module Strings {
  import opened Options

  /** The characters for which Python's `str.isspace()` holds; `\s` in a `str`
      regular expression and `str.strip()` both use this class. */
  predicate IsWs(c: char) {
    || c == ' ' || c == '\t' || c == '\n' || c == '\U{000b}' || c == '\U{000c}' || c == '\r'
    || ('\U{001c}' <= c <= '\U{001f}')
    || c == '\U{0085}' || c == '\U{00a0}' || c == '\U{1680}'
    || ('\U{2000}' <= c <= '\U{200a}')
    || c == '\U{2028}' || c == '\U{2029}' || c == '\U{202f}' || c == '\U{205f}' || c == '\U{3000}'
  }

  /** The class `[\x00-\x1f\x7f-\x9f]` deleted by the sanitiser. */
  predicate IsControl(c: char) {
    c <= '\U{001f}' || ('\U{007f}' <= c <= '\U{009f}')
  }

  predicate IsDigit(c: char) {
    '0' <= c <= '9'
  }

  /** Python's `s.startswith(p)`. */
  predicate StartsWith(s: string, p: string) {
    |p| <= |s| && s[..|p|] == p
  }

  /** Python's `sub in s`. */
  predicate Contains(s: string, sub: string)
    decreases |s|
  {
    StartsWith(s, sub) || (|s| > 0 && Contains(s[1..], sub))
  }

  /** `str.lower()` restricted to the ASCII letters. */
  function AsciiLower(s: string): (r: string)
    ensures |r| == |s|
    ensures forall i :: 0 <= i < |s| ==> ('A' <= s[i] <= 'Z' ==> r[i] == (s[i] as int + 32) as char)
    ensures forall i :: 0 <= i < |s| ==> (!('A' <= s[i] <= 'Z') ==> r[i] == s[i])
  {
    seq(|s|, i requires 0 <= i < |s| => if 'A' <= s[i] <= 'Z' then (s[i] as int + 32) as char else s[i])
  }

  // ---------------------------------------------------------------------------
  // str.strip()
  // ---------------------------------------------------------------------------

  /** The number of whitespace characters at the start of `s`. */
  function LeadingWs(s: string): (n: nat)
    ensures n <= |s|
    ensures forall k :: 0 <= k < n ==> IsWs(s[k])
    ensures n == |s| || !IsWs(s[n])
    decreases |s|
  {
    if |s| > 0 && IsWs(s[0]) then 1 + LeadingWs(s[1..]) else 0
  }

  /** The number of whitespace characters at the end of `s`. */
  function TrailingWs(s: string): (n: nat)
    ensures n <= |s|
    ensures forall k :: |s| - n <= k < |s| ==> IsWs(s[k])
    ensures n == |s| || !IsWs(s[|s| - n - 1])
    decreases |s|
  {
    if |s| > 0 && IsWs(s[|s| - 1]) then 1 + TrailingWs(s[..|s| - 1]) else 0
  }

  /** `str.lstrip()`. */
  function LStrip(s: string): string {
    s[LeadingWs(s)..]
  }

  /** `str.rstrip()`. */
  function RStrip(s: string): string {
    s[..|s| - TrailingWs(s)]
  }

  /** `str.strip()`: the slice of `s` left after dropping whitespace from both ends. */
  function Strip(s: string): (r: string)
    ensures |r| <= |s|
    ensures |r| == 0 || (!IsWs(r[0]) && !IsWs(r[|r| - 1]))
    ensures (|s| == 0 || (!IsWs(s[0]) && !IsWs(s[|s| - 1]))) ==> r == s
  {
    RStrip(LStrip(s))
  }

  // ---------------------------------------------------------------------------
  // int(text) for decimal text, and its inverse str(n)
  // ---------------------------------------------------------------------------

  /** Decimal digits with single underscores between digits, as Python's `int()` accepts them. */
  predicate ValidDigits(s: string) {
    && |s| > 0
    && IsDigit(s[0])
    && IsDigit(s[|s| - 1])
    && forall i :: 0 <= i < |s| ==> (IsDigit(s[i]) || (s[i] == '_' && i + 1 < |s| && IsDigit(s[i + 1])))
  }

  /** The value of a digit string, underscores ignored. */
  function DigitsValue(s: string): nat
    decreases |s|
  {
    if |s| == 0 then 0
    else if IsDigit(s[|s| - 1]) then DigitsValue(s[..|s| - 1]) * 10 + (s[|s| - 1] as int - '0' as int)
    else DigitsValue(s[..|s| - 1])
  }

  /** Python's `int(text)` in base 10: surrounding whitespace, an optional sign, digits. */
  function ParseInt(text: string): Option<int> {
    var t := Strip(text);
    if |t| > 0 && (t[0] == '+' || t[0] == '-') then
      var magnitude: int := DigitsValue(t[1..]);
      if ValidDigits(t[1..]) then Some(if t[0] == '-' then -magnitude else magnitude)
      else None
    else if ValidDigits(t) then Some(DigitsValue(t))
    else None
  }

  function DigitChar(d: nat): char
    requires d < 10
  {
    ('0' as int + d) as char
  }

  /** Python's `str(n)` for a natural number. */
  function ShowNat(n: nat): (r: string)
    ensures |r| > 0 && forall i :: 0 <= i < |r| ==> IsDigit(r[i])
    decreases n
  {
    if n < 10 then [DigitChar(n)] else ShowNat(n / 10) + [DigitChar(n % 10)]
  }

  /** Python's `str(n)` for an integer. */
  function ShowInt(n: int): (r: string)
    ensures |r| > 0
  {
    if n < 0 then "-" + ShowNat(-n) else ShowNat(n)
  }

  lemma {:induction false} ShowNatValue(n: nat)
    ensures ValidDigits(ShowNat(n))
    ensures DigitsValue(ShowNat(n)) == n
    decreases n
  {
    var s := ShowNat(n);
    if n >= 10 {
      ShowNatValue(n / 10);
      assert s[..|s| - 1] == ShowNat(n / 10);
    }
  }

  lemma DigitOrSignIsNotWs(c: char)
    requires IsDigit(c) || c == '-'
    ensures !IsWs(c)
  {
  }

  /** `int(str(n)) == n`: decimal rendering and parsing are inverse. */
  lemma ParseShowInt(n: int)
    ensures ParseInt(ShowInt(n)) == Some(n)
  {
    var s := ShowInt(n);
    var m: nat := if n < 0 then -n else n;
    ShowNatValue(m);
    var d := ShowNat(m);
    DigitOrSignIsNotWs(d[|d| - 1]);
    if n < 0 {
      assert s == "-" + d;
      DigitOrSignIsNotWs('-');
      assert s[|s| - 1] == d[|d| - 1];
      assert Strip(s) == s;
      assert s[1..] == d;
    } else {
      assert s == d;
      DigitOrSignIsNotWs(d[0]);
      assert Strip(s) == s;
      assert ValidDigits(s);
    }
  }

  // ---------------------------------------------------------------------------
  // str.split(sep) for a one-character separator, and sep.join(parts)
  // ---------------------------------------------------------------------------

  /** The index of the first `sep` in `s`. */
  function IndexOf(s: string, sep: char): (i: nat)
    requires sep in s
    ensures i < |s| && s[i] == sep && sep !in s[..i]
  {
    if s[0] == sep then 0 else 1 + IndexOf(s[1..], sep)
  }

  /** Python's `s.split(sep)`: the pieces between occurrences of `sep`, empty pieces kept. */
  function Split(s: string, sep: char): (parts: seq<string>)
    ensures |parts| > 0
    ensures forall i :: 0 <= i < |parts| ==> sep !in parts[i]
    decreases |s|
  {
    if sep !in s then [s]
    else
      var i := IndexOf(s, sep);
      [s[..i]] + Split(s[i + 1..], sep)
  }

  /** Splitting text that starts with a separator-free piece and a separator
      yields that piece first. */
  lemma SplitCons(u: string, sep: char, t: string)
    requires sep !in u
    ensures Split(u + [sep] + t, sep) == [u] + Split(t, sep)
  {
    var s := u + [sep] + t;
    assert s[|u|] == sep;
    var i := IndexOf(s, sep);
    assert i == |u|;
    assert s[..i] == u;
    assert s[i + 1..] == t;
  }

  /** Python's `sep.join(parts)`. */
  function Join(parts: seq<string>, sep: char): string
    decreases |parts|
  {
    if |parts| == 0 then ""
    else if |parts| == 1 then parts[0]
    else parts[0] + [sep] + Join(parts[1..], sep)
  }

  /** Joining the pieces of a split with the same separator gives back the text. */
  lemma {:induction false} JoinSplit(s: string, sep: char)
    ensures Join(Split(s, sep), sep) == s
    decreases |s|
  {
    if sep in s {
      var i := IndexOf(s, sep);
      JoinSplit(s[i + 1..], sep);
      assert s == s[..i] + [sep] + s[i + 1..];
    }
  }
}
