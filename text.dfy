/**
 * The string operations of Python and JavaScript that the modelled code relies on:
 * whitespace stripping, lower-casing, substring search, replacement, splitting and joining,
 * and the decimal text of an integer.
 */
module Text {

  /** Python's `str.isspace()` for one character. */
  predicate IsSpace(c: char) {
    var n := c as int;
    (0x09 <= n <= 0x0D) || (0x1C <= n <= 0x20) || n == 0x85 || n == 0xA0 || n == 0x1680
    || (0x2000 <= n <= 0x200A) || n == 0x2028 || n == 0x2029 || n == 0x202F || n == 0x205F || n == 0x3000
  }

  /** The characters JavaScript's `String.prototype.trim` removes (white space and line terminators). */
  predicate IsJsSpace(c: char) {
    var n := c as int;
    (0x09 <= n <= 0x0D) || n == 0x20 || n == 0xA0 || n == 0x1680 || (0x2000 <= n <= 0x200A)
    || n == 0x2028 || n == 0x2029 || n == 0x202F || n == 0x205F || n == 0x3000 || n == 0xFEFF
  }

  /** Number of leading characters of `s` that satisfy `sp`. */
  function Leading(s: string, sp: char -> bool): (n: nat)
    ensures n <= |s|
    ensures forall k :: 0 <= k < n ==> sp(s[k])
    ensures n < |s| ==> !sp(s[n])
  {
    if s == [] || !sp(s[0]) then 0 else 1 + Leading(s[1..], sp)
  }

  /** Number of trailing characters of `s` that satisfy `sp`. */
  function Trailing(s: string, sp: char -> bool): (n: nat)
    ensures n <= |s|
    ensures forall k :: |s| - n <= k < |s| ==> sp(s[k])
    ensures n < |s| ==> !sp(s[|s| - 1 - n])
  {
    if s == [] || !sp(s[|s| - 1]) then 0 else 1 + Trailing(s[..|s| - 1], sp)
  }

  /** `s` with its leading and trailing `sp`-characters removed. */
  function TrimBy(s: string, sp: char -> bool): (r: string)
    ensures |r| <= |s|
    ensures r != [] ==> !sp(r[0]) && !sp(r[|r| - 1])
    ensures (forall k :: 0 <= k < |s| ==> !sp(s[k])) ==> r == s
    ensures r == [] <==> forall k :: 0 <= k < |s| ==> sp(s[k])
    // `r` is the middle of `s`: what precedes it and what follows it are all `sp`-characters
    ensures var i := Leading(s, sp);
      && i + |r| <= |s| && r == s[i..i + |r|]
      && (forall k :: 0 <= k < i ==> sp(s[k]))
      && (forall k :: i + |r| <= k < |s| ==> sp(s[k]))
  {
    var i := Leading(s, sp);
    var t := s[i..];
    var j := Trailing(t, sp);
    assert i < |s| ==> j < |t|;
    t[..|t| - j]
  }

  /** Python's `str.strip()`. */
  function Strip(s: string): string {
    TrimBy(s, IsSpace)
  }

  /** JavaScript's `String.prototype.trim()`. */
  function JsTrim(s: string): string {
    TrimBy(s, IsJsSpace)
  }

  /**
   * Python's `str.lower()` for one character, over ASCII, Latin-1 and Latin Extended-A
   * (the letters Turkish text uses). Capital dotted I lower-cases to two characters.
   */
  function LowerChar(c: char): string {
    var n := c as int;
    if 'A' <= c <= 'Z' then [(n + 32) as char]
    else if 0xC0 <= n <= 0xDE && n != 0xD7 then [(n + 32) as char]
    else if n == 0x130 then ['i', 0x307 as char]
    else if ((0x100 <= n <= 0x12F) || (0x132 <= n <= 0x137) || (0x14A <= n <= 0x177)) && n % 2 == 0 then [(n + 1) as char]
    else if ((0x139 <= n <= 0x148) || (0x179 <= n <= 0x17E)) && n % 2 == 1 then [(n + 1) as char]
    else if n == 0x178 then [0xFF as char]
    else [c]
  }

  /** Python's `str.lower()`, character by character. */
  function Lower(s: string): string {
    if s == [] then [] else LowerChar(s[0]) + Lower(s[1..])
  }

  /** Python's `t in s` on strings, JavaScript's `s.includes(t)`. */
  predicate Contains(s: string, t: string) {
    exists i :: 0 <= i <= |s| - |t| && OccursAt(s, t, i)
  }

  /** `t` occurs in `s` starting at index `i`. */
  predicate OccursAt(s: string, t: string, i: int) {
    0 <= i <= |s| - |t| && s[i..i + |t|] == t
  }

  predicate StartsWith(s: string, prefix: string) {
    |prefix| <= |s| && s[..|prefix|] == prefix
  }

  /** Python's `s.replace(pat, "")`: every non-overlapping occurrence, scanning from the left, removed. */
  function RemoveAll(s: string, pat: string): (r: string)
    requires pat != []
    ensures |r| <= |s|
    ensures !Contains(s, pat) ==> r == s
    decreases |s|
  {
    if s == [] then []
    else if StartsWith(s, pat) then
      assert OccursAt(s, pat, 0);
      RemoveAll(s[|pat|..], pat)
    else
      NotContainedInSuffix(s, pat);
      [s[0]] + RemoveAll(s[1..], pat)
  }

  lemma NotContainedInSuffix(s: string, pat: string)
    requires s != []
    ensures !Contains(s, pat) ==> !Contains(s[1..], pat)
  {
    if Contains(s[1..], pat) {
      var i :| 0 <= i <= |s[1..]| - |pat| && OccursAt(s[1..], pat, i);
      assert s[i + 1..i + 1 + |pat|] == s[1..][i..i + |pat|];
      assert OccursAt(s, pat, i + 1);
    }
  }

  /** Python's `sep.join(parts)`. */
  function Join(parts: seq<string>, sep: string): string {
    if parts == [] then "" else if |parts| == 1 then parts[0] else parts[0] + sep + Join(parts[1..], sep)
  }

  /** JavaScript's `s.split(sep)` for a one-character separator. */
  function Split(s: string, sep: char): (r: seq<string>)
    ensures |r| >= 1
    ensures forall k :: 0 <= k < |r| ==> sep !in r[k]
  {
    if s == [] then [""]
    else
      var rest := Split(s[1..], sep);
      if s[0] == sep then [""] + rest else [[s[0]] + rest[0]] + rest[1..]
  }

  /** The pieces concatenated with the separator between them give the string back. */
  lemma {:induction false} SplitJoin(s: string, sep: char)
    ensures Join(Split(s, sep), [sep]) == s
  {
    if s != [] {
      var rest := Split(s[1..], sep);
      SplitJoin(s[1..], sep);
      if s[0] != sep {
        JoinHead(rest, [s[0]], [sep]);
      }
    }
  }

  lemma JoinHead(parts: seq<string>, pre: string, sep: string)
    requires parts != []
    ensures Join([pre + parts[0]] + parts[1..], sep) == pre + Join(parts, sep)
  {
    var q := [pre + parts[0]] + parts[1..];
    if |parts| > 1 {
      assert q[1..] == parts[1..];
    }
  }

  function DigitChar(d: nat): char
    requires d < 10
  {
    ('0' as int + d) as char
  }

  predicate IsDigit(c: char) {
    '0' <= c <= '9'
  }

  /** The decimal digits of a natural number, most significant first. */
  function Digits(n: nat): (r: string)
    ensures r != [] && forall k :: 0 <= k < |r| ==> IsDigit(r[k])
  {
    if n < 10 then [DigitChar(n)] else Digits(n / 10) + [DigitChar(n % 10)]
  }

  /** The value of a string of decimal digits. */
  function DigitsValue(s: string): nat
    requires forall k :: 0 <= k < |s| ==> IsDigit(s[k])
  {
    if s == [] then 0
    else
      assert IsDigit(s[|s| - 1]);
      10 * DigitsValue(s[..|s| - 1]) + (s[|s| - 1] as int - '0' as int)
  }

  /** Reading back the digits of `n` gives `n`. */
  lemma {:induction false} DigitsRoundTrip(n: nat)
    ensures DigitsValue(Digits(n)) == n
  {
    if n >= 10 {
      var d := Digits(n / 10);
      DigitsRoundTrip(n / 10);
      assert (d + [DigitChar(n % 10)])[..|d|] == d;
    }
  }

  /** Python's `str(n)` and JavaScript's `String(n)` for an integer. */
  function DecimalText(n: int): (r: string)
    ensures r != []
    ensures n >= 0 ==> r == Digits(n)
    ensures n < 0 ==> r == "-" + Digits(-n)
  {
    if n >= 0 then Digits(n) else "-" + Digits(-n)
  }
}
