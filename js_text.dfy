/**
 * The JavaScript string operations the modelled code relies on (`trim`,
 * `indexOf`, `lastIndexOf`, `split`, `join`, `startsWith`, `endsWith`,
 * `parseInt(_, 10)`, `/^\d+$/`), written out over `seq<char>`.
 * Characters are Unicode scalar values; `Utf16Length` gives JavaScript's
 * `length`, which counts UTF-16 code units.
 */
module JsText {
  import opened Wrappers

  /** ECMAScript WhiteSpace and LineTerminator code points (what `trim` removes). */
  predicate IsJsWhitespace(c: char) {
    c == '\t' || c == '\n' || c == '\U{000B}' || c == '\U{000C}' || c == '\r' || c == ' '
    || c == '\U{00A0}' || c == '\U{1680}' || ('\U{2000}' <= c <= '\U{200A}')
    || c == '\U{2028}' || c == '\U{2029}' || c == '\U{202F}' || c == '\U{205F}'
    || c == '\U{3000}' || c == '\U{FEFF}'
  }

  /** The code points at which `.` in a JavaScript regular expression stops matching. */
  predicate IsLineTerminator(c: char) {
    c == '\n' || c == '\r' || c == '\U{2028}' || c == '\U{2029}'
  }

  /** `s.trimStart()` */
  function TrimStart(s: string): (r: string)
    ensures |r| <= |s|
    ensures r == [] || !IsJsWhitespace(r[0])
    ensures forall k :: 0 <= k < |s| - |r| ==> IsJsWhitespace(s[k])
  {
    if s == [] || !IsJsWhitespace(s[0]) then s else TrimStart(s[1..])
  }

  /** What `trimStart` keeps is a suffix of its input. */
  lemma {:induction false} TrimStartIsSuffix(s: string)
    ensures TrimStart(s) == s[|s| - |TrimStart(s)|..]
  {
    if s != [] && IsJsWhitespace(s[0]) {
      TrimStartIsSuffix(s[1..]);
      assert s[1..][|s[1..]| - |TrimStart(s[1..])|..] == s[|s| - |TrimStart(s)|..];
    }
  }

  /** `s.trimEnd()` */
  function TrimEnd(s: string): (r: string)
    ensures |r| <= |s|
    ensures r == [] || !IsJsWhitespace(r[|r| - 1])
    ensures forall k :: |r| <= k < |s| ==> IsJsWhitespace(s[k])
  {
    if s == [] || !IsJsWhitespace(s[|s| - 1]) then s else TrimEnd(s[..|s| - 1])
  }

  /** What `trimEnd` keeps is a prefix of its input. */
  lemma {:induction false} TrimEndIsPrefix(s: string)
    ensures TrimEnd(s) == s[..|TrimEnd(s)|]
  {
    if s != [] && IsJsWhitespace(s[|s| - 1]) {
      TrimEndIsPrefix(s[..|s| - 1]);
    }
  }

  /** `s.trim()` */
  function Trim(s: string): (r: string)
    ensures r == [] || (!IsJsWhitespace(r[0]) && !IsJsWhitespace(r[|r| - 1]))
  {
    TrimEndIsPrefix(TrimStart(s));
    TrimEnd(TrimStart(s))
  }

  /** `s.trim()` removes only white space, from both ends. */
  lemma TrimIsInfix(s: string)
    ensures exists i, j ::
              && 0 <= i <= j <= |s| && Trim(s) == s[i..j]
              && (forall k :: 0 <= k < i ==> IsJsWhitespace(s[k]))
              && (forall k :: j <= k < |s| ==> IsJsWhitespace(s[k]))
  {
    var i := |s| - |TrimStart(s)|;
    var j := i + |Trim(s)|;
    TrimSlice(s);
    TrimDropsOnlyWhitespace(s);
    assert 0 <= i <= j <= |s| && Trim(s) == s[i..j];
  }

  /** `trim` keeps the slice between what `trimStart` and `trimEnd` drop. */
  lemma TrimSlice(s: string)
    ensures |s| - |TrimStart(s)| + |Trim(s)| <= |s|
    ensures Trim(s) == s[|s| - |TrimStart(s)|..|s| - |TrimStart(s)| + |Trim(s)|]
  {
    var t := TrimStart(s);
    var i := |s| - |t|;
    TrimStartIsSuffix(s);
    var r := TrimEnd(t);
    TrimEndIsPrefix(t);
    assert Trim(s) == r;
    assert s[i..i + |r|] == s[i..][..|r|];
  }

  /** What `trim` drops at either end is white space. */
  lemma TrimDropsOnlyWhitespace(s: string)
    ensures forall k :: 0 <= k < |s| - |TrimStart(s)| ==> IsJsWhitespace(s[k])
    ensures forall k :: |s| - |TrimStart(s)| + |Trim(s)| <= k < |s| ==> IsJsWhitespace(s[k])
  {
    var t := TrimStart(s);
    var i := |s| - |t|;
    TrimStartIsSuffix(s);
    assert Trim(s) == TrimEnd(t);
    forall k | i + |Trim(s)| <= k < |s| ensures IsJsWhitespace(s[k]) {
      assert s[k] == t[k - i];
    }
  }

  /** JavaScript's `length`: UTF-16 code units (code points above U+FFFF take two). */
  function Utf16Length(s: string): (n: nat)
    ensures |s| <= n <= 2 * |s|
  {
    if s == [] then 0 else Utf16Length(s[..|s| - 1]) + (if s[|s| - 1] as int >= 0x1_0000 then 2 else 1)
  }

  /** `s.startsWith(p)` */
  predicate StartsWith(s: string, p: string) {
    p <= s
  }

  /** `s.endsWith(p)` */
  predicate EndsWith(s: string, p: string) {
    |p| <= |s| && s[|s| - |p|..] == p
  }

  /** `pat` occurs in `s` at position `i` */
  predicate OccursAt(s: string, pat: string, i: int) {
    0 <= i && i + |pat| <= |s| && s[i..i + |pat|] == pat
  }

  /** `s.indexOf(pat)`, with -1 as `None` */
  function IndexOf(s: string, pat: string): (r: Option<nat>)
    ensures r.Some? ==> OccursAt(s, pat, r.value) && forall k :: 0 <= k < r.value ==> !OccursAt(s, pat, k)
    ensures r.None? ==> forall k :: !OccursAt(s, pat, k)
    decreases |s|
  {
    if |s| < |pat| then
      assert forall k :: !OccursAt(s, pat, k);
      None
    else if s[..|pat|] == pat then
      Some(0)
    else
      match IndexOf(s[1..], pat)
      case None =>
        assert forall k :: OccursAt(s, pat, k) ==> k == 0 || OccursAt(s[1..], pat, k - 1);
        None
      case Some(i) =>
        assert OccursAt(s, pat, i + 1) by { assert s[i + 1..i + 1 + |pat|] == s[1..][i..i + |pat|]; }
        assert forall k :: 1 <= k < i + 1 ==> OccursAt(s, pat, k) ==> OccursAt(s[1..], pat, k - 1) by {
          forall k | 1 <= k < i + 1 && OccursAt(s, pat, k) ensures OccursAt(s[1..], pat, k - 1) {
            assert s[1..][k - 1..k - 1 + |pat|] == s[k..k + |pat|];
          }
        }
        Some(i + 1)
  }

  /** `s.includes(pat)` */
  predicate Contains(s: string, pat: string) {
    IndexOf(s, pat).Some?
  }

  /** `s.lastIndexOf(c)` for a one-character pattern, with -1 as `None` */
  function LastIndexOfChar(s: string, c: char): (r: Option<nat>)
    ensures r.Some? ==> r.value < |s| && s[r.value] == c && c !in s[r.value + 1..]
    ensures r.None? <==> c !in s
  {
    if s == [] then None
    else if s[|s| - 1] == c then Some(|s| - 1)
    else
      var r := LastIndexOfChar(s[..|s| - 1], c);
      assert s == s[..|s| - 1] + [s[|s| - 1]];
      assert r.Some? ==> s[r.value + 1..] == s[..|s| - 1][r.value + 1..] + [s[|s| - 1]];
      r
  }

  /** `s.split(sep)` for a one-character separator */
  function Split(s: string, sep: char): (parts: seq<string>)
    ensures |parts| >= 1
    ensures forall k :: 0 <= k < |parts| ==> sep !in parts[k]
  {
    if sep !in s then [s]
    else
      var i := FirstIndexOfChar(s, sep);
      [s[..i]] + Split(s[i + 1..], sep)
  }

  /** Splitting `a + sep + b`, where `a` has no separator, gives `a` and then the parts of `b`. */
  lemma SplitCons(a: string, sep: char, b: string)
    requires sep !in a
    ensures Split(a + [sep] + b, sep) == [a] + Split(b, sep)
  {
    var s := a + [sep] + b;
    assert s[|a|] == sep;
    var i := FirstIndexOfChar(s, sep);
    assert s[..i] == a && s[i + 1..] == b;
  }

  /** the position of the first `c` in `s` */
  function FirstIndexOfChar(s: string, c: char): (i: nat)
    requires c in s
    ensures i < |s| && s[i] == c && c !in s[..i]
  {
    if s[0] == c then 0 else
      var j := FirstIndexOfChar(s[1..], c);
      assert s[..j + 1] == [s[0]] + s[1..][..j];
      j + 1
  }

  /** The first `c` of `a + [c] + b`, where `a` has none, is the one after `a`. */
  lemma {:induction false} FirstIndexOfCharAfter(a: string, c: char, b: string)
    requires c !in a
    ensures c in a + [c] + b && FirstIndexOfChar(a + [c] + b, c) == |a|
  {
    var s := a + [c] + b;
    assert s[|a|] == c;
    if a != [] {
      assert s[0] == a[0];
      assert s[1..] == a[1..] + [c] + b;
      FirstIndexOfCharAfter(a[1..], c, b);
    }
  }

  /** `parts.join(sep)` for a one-character separator */
  function Join(parts: seq<string>, sep: char): string {
    if parts == [] then ""
    else if |parts| == 1 then parts[0]
    else parts[0] + [sep] + Join(parts[1..], sep)
  }

  /** Joining what `split` produced gives back the original string. */
  lemma {:induction false} JoinSplit(s: string, sep: char)
    ensures Join(Split(s, sep), sep) == s
    decreases |s|
  {
    if sep in s {
      var i := FirstIndexOfChar(s, sep);
      var head, rest := s[..i], s[i + 1..];
      var parts := Split(rest, sep);
      assert Split(s, sep) == [head] + parts;
      JoinSplit(rest, sep);
      assert ([head] + parts)[1..] == parts;
      assert Join([head] + parts, sep) == head + [sep] + Join(parts, sep);
      assert s == head + [sep] + rest;
    } else {
      assert Split(s, sep) == [s];
    }
  }

  /** Splitting a join of separator-free pieces gives the pieces back. */
  lemma {:induction false} SplitJoin(parts: seq<string>, sep: char)
    requires |parts| >= 1
    requires forall k :: 0 <= k < |parts| ==> sep !in parts[k]
    ensures Split(Join(parts, sep), sep) == parts
  {
    if |parts| > 1 {
      var s := Join(parts, sep);
      assert s == parts[0] + [sep] + Join(parts[1..], sep);
      assert sep in s by { assert s[|parts[0]|] == sep; }
      var i := FirstIndexOfChar(s, sep);
      assert s[..|parts[0]|] == parts[0];
      assert i == |parts[0]|;
      assert s[..i] == parts[0];
      assert s[i + 1..] == Join(parts[1..], sep);
      SplitJoin(parts[1..], sep);
    }
  }

  predicate IsAsciiDigit(c: char) {
    '0' <= c <= '9'
  }

  /** `/^\d+$/.test(s)` */
  predicate AllDigits(s: string) {
    |s| > 0 && forall k :: 0 <= k < |s| ==> IsAsciiDigit(s[k])
  }

  /** ASCII lower-casing (A-Z only) */
  function LowerAscii(s: string): (r: string)
    ensures |r| == |s|
    ensures forall k :: 0 <= k < |s| ==> r[k] == (if 'A' <= s[k] <= 'Z' then (s[k] as int + 32) as char else s[k])
  {
    seq(|s|, k requires 0 <= k < |s| => if 'A' <= s[k] <= 'Z' then (s[k] as int + 32) as char else s[k])
  }

  /** a substring test under case folding of the ASCII letters A-Z only (no other letter is folded) */
  predicate ContainsInsensitive(s: string, pat: string) {
    Contains(LowerAscii(s), LowerAscii(pat))
  }

  function DigitChar(d: nat): char
    requires d < 10
  {
    ('0' as int + d) as char
  }

  function DigitValue(c: char): nat
    requires IsAsciiDigit(c)
  {
    c as int - '0' as int
  }

  /** decimal text of a natural number, as `String(n)` writes it */
  function NatToString(n: nat): (s: string)
    ensures AllDigits(s)
    ensures |s| == 1 || s[0] != '0'
  {
    if n < 10 then [DigitChar(n)] else NatToString(n / 10) + [DigitChar(n % 10)]
  }

  /** decimal text of an integer, as `String(n)` writes it */
  function IntToString(n: int): (s: string)
    ensures |s| > 0
    ensures n >= 0 <==> s[0] != '-'
  {
    if n >= 0 then NatToString(n) else "-" + NatToString(-n)
  }

  /** the value of a string of decimal digits */
  function DigitsValue(s: string): nat
    requires forall k :: 0 <= k < |s| ==> IsAsciiDigit(s[k])
  {
    if s == [] then 0 else 10 * DigitsValue(s[..|s| - 1]) + DigitValue(s[|s| - 1])
  }

  lemma {:induction false} DigitsValueOfNatToString(n: nat)
    ensures DigitsValue(NatToString(n)) == n
  {
    if n >= 10 {
      var s := NatToString(n);
      assert s[..|s| - 1] == NatToString(n / 10);
      DigitsValueOfNatToString(n / 10);
    }
  }

  /** the length of the longest prefix of `s` made of ASCII digits */
  function DigitPrefixLength(s: string): (n: nat)
    ensures n <= |s|
    ensures forall k :: 0 <= k < n ==> IsAsciiDigit(s[k])
    ensures n < |s| ==> !IsAsciiDigit(s[n])
  {
    if s == [] || !IsAsciiDigit(s[0]) then 0 else 1 + DigitPrefixLength(s[1..])
  }

  /**
   * `parseInt(s, 10)`: leading white space is skipped, one optional sign is
   * read, then the longest run of digits; `None` stands for NaN.
   */
  function ParseIntPrefix(s: string): (r: Option<int>)
  {
    var t := TrimStart(s);
    if |t| > 0 && (t[0] == '-' || t[0] == '+') then SignedDigits(t[1..], t[0] == '-')
    else SignedDigits(t, false)
  }

  /** the leading digits of `body`, negated when `neg` holds */
  function SignedDigits(body: string, neg: bool): (r: Option<int>)
    ensures r.None? <==> body == [] || !IsAsciiDigit(body[0])
  {
    var n := DigitPrefixLength(body);
    if n == 0 then None
    else
      var v: int := DigitsValue(body[..n]);
      Some(if neg then -v else v)
  }

  /** `parseInt` reads back what `String(n)` wrote. */
  lemma ParseIntOfIntToString(n: int)
    ensures ParseIntPrefix(IntToString(n)) == Some(n)
  {
    var m := if n >= 0 then n else -n;
    var digits := NatToString(m);
    DigitsValueOfNatToString(m);
    if n >= 0 {
      ParseIntOfDigitsThen(digits, "");
      assert digits + "" == digits;
    } else {
      var s := "-" + digits;
      assert s == IntToString(n);
      assert TrimStart(s) == s;
      assert s[1..] == digits;
      DigitPrefixOfDigits(digits);
      assert digits[..|digits|] == digits;
      assert SignedDigits(digits, true) == Some(-m);
    }
  }

  /** `parseInt` stops at the first character that is not a digit. */
  lemma ParseIntOfDigitsThen(digits: string, rest: string)
    requires AllDigits(digits)
    requires rest == [] || !IsAsciiDigit(rest[0])
    ensures ParseIntPrefix(digits + rest) == Some(DigitsValue(digits))
  {
    var s := digits + rest;
    assert s[0] == digits[0];
    assert TrimStart(s) == s;
    DigitPrefixOfDigitsThen(digits, rest);
    assert s[..|digits|] == digits;
  }

  lemma {:induction false} DigitPrefixOfDigitsThen(digits: string, rest: string)
    requires forall k :: 0 <= k < |digits| ==> IsAsciiDigit(digits[k])
    requires rest == [] || !IsAsciiDigit(rest[0])
    ensures DigitPrefixLength(digits + rest) == |digits|
  {
    if digits != [] {
      assert (digits + rest)[1..] == digits[1..] + rest;
      DigitPrefixOfDigitsThen(digits[1..], rest);
    } else {
      assert digits + rest == rest;
    }
  }

  lemma {:induction false} DigitPrefixOfDigits(s: string)
    requires forall k :: 0 <= k < |s| ==> IsAsciiDigit(s[k])
    ensures DigitPrefixLength(s) == |s|
  {
    if s != [] {
      DigitPrefixOfDigits(s[1..]);
    }
  }
}
