/**
 * The JavaScript built-in behaviour the application code relies on, stated
 * once: optional values, `Date` time values (with Invalid Date), the integer
 * results of `parseInt` (with NaN), decimal printing of integers, `trim`,
 * `toLowerCase`, `includes`, `join`, `startsWith` and the `<` order on strings.
 */
module Builtins {

  datatype Option<+T> = None | Some(value: T)

  /** A `Date`: a time value in milliseconds, or Invalid Date (time value NaN). */
  datatype Date = At(ms: int) | Invalid

  /** The largest magnitude of a valid time value (ECMAScript TimeClip). */
  const MaxTimeValue: int := 8_640_000_000_000_000

  /** `new Date(ms)`: out-of-range time values give Invalid Date. */
  function MakeDate(ms: int): (d: Date)
    ensures d.At? <==> -MaxTimeValue <= ms <= MaxTimeValue
    ensures d.At? ==> d.ms == ms
  {
    if -MaxTimeValue <= ms <= MaxTimeValue then At(ms) else Invalid
  }

  /** `a < b` on dates compares time values; any comparison with NaN is false. */
  predicate DateLess(a: Date, b: Date) {
    a.At? && b.At? && a.ms < b.ms
  }

  /** `a <= b` on dates. */
  predicate DateLessEq(a: Date, b: Date) {
    a.At? && b.At? && a.ms <= b.ms
  }

  /** A number produced by `parseInt`: an integer, or NaN. */
  datatype Num = N(v: int) | NaN

  /** JavaScript truthiness of such a number: 0 and NaN are falsy. */
  predicate NumTruthy(n: Num) {
    n.N? && n.v != 0
  }

  /** `Math.floor(d.getTime() / 1000)`, the whole seconds of a date. */
  function Seconds(d: Date): (r: Num)
    ensures d.At? <==> r.N?
    ensures d.At? ==> r.v * 1000 <= d.ms < r.v * 1000 + 1000
  {
    if d.At? then N(d.ms / 1000) else NaN
  }

  /** `new Date(n * 1000)` for a number of seconds read back with `parseInt`. */
  function DateFromSeconds(n: Num): Date {
    if n.N? then MakeDate(n.v * 1000) else Invalid
  }

  /** A date truncated to whole seconds (towards minus infinity). */
  function WholeSeconds(d: Date): (r: Date)
    ensures d.At? <==> r.At?
    ensures d.At? ==> r.ms <= d.ms < r.ms + 1000 && r.ms % 1000 == 0
  {
    if d.At? then At(d.ms / 1000 * 1000) else Invalid
  }

  /** Every `Date` the runtime produces holds a time value within the TimeClip range. */
  predicate Clipped(d: Date) {
    d.At? ==> -MaxTimeValue <= d.ms <= MaxTimeValue
  }

  /** Writing a date as whole seconds and reading it back truncates it to whole seconds. */
  lemma DateFromSecondsOfSeconds(d: Date)
    requires Clipped(d)
    ensures DateFromSeconds(Seconds(d)) == WholeSeconds(d)
  {
    if d.At? {
      var q := d.ms / 1000;
      assert q * 1000 <= d.ms;
      assert -MaxTimeValue <= q * 1000;
    }
  }

  // ---------------------------------------------------------------------
  // Printing integers

  function DigitChar(d: int): (c: char)
    requires 0 <= d < 10
    ensures IsDigit(c) && DigitValue(c) == d
  {
    "0123456789"[d]
  }

  function NatToString(n: nat): (s: string)
    ensures s != [] && IsDigit(s[0])
    ensures forall i :: 0 <= i < |s| ==> IsDigit(s[i])
    decreases n
  {
    if n < 10 then [DigitChar(n)] else NatToString(n / 10) + [DigitChar(n % 10)]
  }

  /** `n.toString()` for an integral number. */
  function IntToString(n: int): string {
    if n < 0 then "-" + NatToString(-n) else NatToString(n)
  }

  /** `n.toString()` for a number that `parseInt` produced. */
  function NumToString(n: Num): string {
    match n
    case N(v) => IntToString(v)
    case NaN => "NaN"
  }

  // ---------------------------------------------------------------------
  // parseInt(s) with no radix argument

  predicate IsDigit(c: char) {
    '0' <= c <= '9'
  }

  function DigitValue(c: char): nat
    requires IsDigit(c)
  {
    c as int - '0' as int
  }

  predicate IsHexDigit(c: char) {
    IsDigit(c) || 'a' <= c <= 'f' || 'A' <= c <= 'F'
  }

  function HexDigitValue(c: char): nat
    requires IsHexDigit(c)
  {
    if IsDigit(c) then DigitValue(c)
    else if 'a' <= c <= 'f' then c as int - 'a' as int + 10
    else c as int - 'A' as int + 10
  }

  /** The characters `trim` removes and `parseInt` skips: WhiteSpace and LineTerminator. */
  predicate IsJsWhitespace(c: char) {
    c == '\t' || c == '\n' || c == '\U{000B}' || c == '\U{000C}' || c == '\r' || c == ' '
    || c == '\U{00A0}' || c == '\U{1680}' || ('\U{2000}' <= c <= '\U{200A}')
    || c == '\U{2028}' || c == '\U{2029}' || c == '\U{202F}' || c == '\U{205F}'
    || c == '\U{3000}' || c == '\U{FEFF}'
  }

  /** Length of the longest prefix of `s` whose characters satisfy the radix's digit test. */
  function DigitRun(s: string, hex: bool): (n: nat)
    ensures n <= |s|
    ensures forall i :: 0 <= i < n ==> if hex then IsHexDigit(s[i]) else IsDigit(s[i])
  {
    if s == [] || !(if hex then IsHexDigit(s[0]) else IsDigit(s[0])) then 0
    else 1 + DigitRun(s[1..], hex)
  }

  /** The value of a run of digits in radix 10 or 16, most significant first. */
  function RunValue(ds: string, hex: bool): nat
    requires forall i :: 0 <= i < |ds| ==> if hex then IsHexDigit(ds[i]) else IsDigit(ds[i])
  {
    if ds == [] then 0
    else
      var last := ds[|ds| - 1];
      RunValue(ds[..|ds| - 1], hex) * (if hex then 16 else 10)
        + (if hex then HexDigitValue(last) else DigitValue(last))
  }

  function LeadingWhitespace(s: string): (n: nat)
    ensures n <= |s|
    ensures forall i :: 0 <= i < n ==> IsJsWhitespace(s[i])
    ensures n < |s| ==> !IsJsWhitespace(s[n])
  {
    if s != [] && IsJsWhitespace(s[0]) then 1 + LeadingWhitespace(s[1..]) else 0
  }

  /**
   * `parseInt(s)`: skip leading white space, read an optional sign, read a
   * `0x`/`0X` prefix as radix 16, then the longest run of digits; NaN when
   * there is no digit.
   */
  function ParseInt(s: string): Num {
    var t := s[LeadingWhitespace(s)..];
    var negative := |t| > 0 && t[0] == '-';
    var u := if |t| > 0 && (t[0] == '-' || t[0] == '+') then t[1..] else t;
    var hex := |u| >= 2 && u[0] == '0' && (u[1] == 'x' || u[1] == 'X');
    var w := if hex then u[2..] else u;
    var n := DigitRun(w, hex);
    if n == 0 then NaN
    else
      var magnitude: int := RunValue(w[..n], hex);
      N(if negative then -magnitude else magnitude)
  }

  lemma {:induction false} DigitRunAll(s: string)
    requires forall i :: 0 <= i < |s| ==> IsDigit(s[i])
    ensures DigitRun(s, false) == |s|
  {
    if s != [] {
      DigitRunAll(s[1..]);
    }
  }

  lemma {:induction false} RunValueOfNatToString(n: nat)
    ensures RunValue(NatToString(n), false) == n
    decreases n
  {
    var s := NatToString(n);
    if n >= 10 {
      var prefix := NatToString(n / 10);
      assert s == prefix + [DigitChar(n % 10)];
      assert s[..|s| - 1] == prefix;
      RunValueOfNatToString(n / 10);
    }
  }

  /** A sign or a digit is not white space. */
  lemma SignOrDigitNotSpace(c: char)
    requires c == '-' || IsDigit(c)
    ensures !IsJsWhitespace(c)
  {
  }

  /** `parseInt` of a run of decimal digits: radix 10, every digit read. */
  lemma ParseIntOfUnsigned(digits: string)
    requires digits != [] && forall i :: 0 <= i < |digits| ==> IsDigit(digits[i])
    ensures !(|digits| >= 2 && digits[0] == '0' && (digits[1] == 'x' || digits[1] == 'X'))
    ensures DigitRun(digits, false) == |digits| && digits[..|digits|] == digits
  {
    if |digits| >= 2 {
      assert IsDigit(digits[1]);
    }
    DigitRunAll(digits);
  }

  /** `parseInt` of an optional minus sign and a run of decimal digits. */
  lemma ParseIntOfDigits(digits: string, negative: bool)
    requires digits != [] && forall i :: 0 <= i < |digits| ==> IsDigit(digits[i])
    ensures ParseInt(if negative then "-" + digits else digits)
         == N(if negative then 0 - RunValue(digits, false) as int else RunValue(digits, false))
  {
    var s := if negative then "-" + digits else digits;
    SignOrDigitNotSpace(s[0]);
    assert LeadingWhitespace(s) == 0;
    assert s[0..] == s;
    if negative {
      assert s[1..] == digits;
    }
    ParseIntOfUnsigned(digits);
  }

  /** `parseInt(n.toString())` gives `n` back. */
  lemma ParseIntToString(n: int)
    ensures ParseInt(IntToString(n)) == N(n)
  {
    var m: nat := if n < 0 then -n else n;
    ParseIntOfDigits(NatToString(m), n < 0);
    RunValueOfNatToString(m);
  }

  /** The printed form of any parsed number parses back to it, NaN included. */
  lemma ParseNumToString(n: Num)
    ensures ParseInt(NumToString(n)) == n
  {
    match n
    case N(v) => ParseIntToString(v);
    case NaN =>
      var s := NumToString(n);
      assert LeadingWhitespace(s) == 0;
      assert s[0..] == s;
      assert DigitRun(s, false) == 0;
  }

  /** Printed numbers are never empty, so never falsy. */
  lemma NumToStringNonEmpty(n: Num)
    ensures NumToString(n) != ""
  {
  }

  // ---------------------------------------------------------------------
  // Strings

  /** `s.trim()`. */
  function Trim(s: string): (r: string)
    ensures |r| <= |s|
    ensures r != [] ==> !IsJsWhitespace(r[0]) && !IsJsWhitespace(r[|r| - 1])
    ensures forall i :: 0 <= i < |s| && !IsJsWhitespace(s[i]) ==> r != []
    ensures LeadingWhitespace(s) + |r| <= |s|
    ensures r == s[LeadingWhitespace(s)..LeadingWhitespace(s) + |r|]
    ensures forall i :: 0 <= i < LeadingWhitespace(s) ==> IsJsWhitespace(s[i])
    ensures forall i :: LeadingWhitespace(s) + |r| <= i < |s| ==> IsJsWhitespace(s[i])
  {
    var start := LeadingWhitespace(s);
    TrimEnd(s[start..])
  }

  function TrimEnd(s: string): (r: string)
    requires s == [] || !IsJsWhitespace(s[0])
    ensures |r| <= |s| && r == s[..|r|]
    ensures r != [] ==> !IsJsWhitespace(r[0]) && !IsJsWhitespace(r[|r| - 1])
    ensures forall i :: 0 <= i < |s| && !IsJsWhitespace(s[i]) ==> r != []
    ensures forall i :: |r| <= i < |s| ==> IsJsWhitespace(s[i])
  {
    if s == [] || !IsJsWhitespace(s[|s| - 1]) then s else TrimEnd(s[..|s| - 1])
  }

  /** `s.toLowerCase()` restricted to the ASCII letters. */
  function ToLower(s: string): (r: string)
    ensures |r| == |s|
  {
    seq(|s|, i requires 0 <= i < |s| => if 'A' <= s[i] <= 'Z' then (s[i] as int + 32) as char else s[i])
  }

  /** `hay.includes(needle)`. */
  predicate Includes(hay: string, needle: string) {
    exists i :: 0 <= i <= |hay| - |needle| && OccursAt(hay, needle, i)
  }

  predicate OccursAt(hay: string, needle: string, i: int) {
    0 <= i <= |hay| - |needle| && hay[i..i + |needle|] == needle
  }

  /** `s.startsWith(prefix)`. */
  predicate StartsWith(s: string, prefix: string) {
    |prefix| <= |s| && s[..|prefix|] == prefix
  }

  /** `a < b` on strings: lexicographic by character. */
  predicate StrLess(a: string, b: string)
    decreases |a|
  {
    if a == [] then b != []
    else if b == [] then false
    else if a[0] != b[0] then a[0] < b[0]
    else StrLess(a[1..], b[1..])
  }

  lemma {:induction false} StrLessIrreflexive(a: string)
    ensures !StrLess(a, a)
    decreases |a|
  {
    if a != [] {
      StrLessIrreflexive(a[1..]);
    }
  }

  lemma {:induction false} StrLessAsymmetric(a: string, b: string)
    requires StrLess(a, b)
    ensures !StrLess(b, a)
    decreases |a|
  {
    if a != [] && b != [] && a[0] == b[0] {
      StrLessAsymmetric(a[1..], b[1..]);
    }
  }

  lemma {:induction false} StrLessTransitive(a: string, b: string, c: string)
    requires StrLess(a, b) && StrLess(b, c)
    ensures StrLess(a, c)
    decreases |a|
  {
    if a != [] && b != [] && c != [] && a[0] == b[0] && b[0] == c[0] {
      StrLessTransitive(a[1..], b[1..], c[1..]);
    }
  }

  lemma {:induction false} StrLessTotal(a: string, b: string)
    requires a != b
    ensures StrLess(a, b) || StrLess(b, a)
    decreases |a|
  {
    if a != [] && b != [] && a[0] == b[0] {
      assert a == [a[0]] + a[1..] && b == [b[0]] + b[1..];
      StrLessTotal(a[1..], b[1..]);
    }
  }

  /** `parts.join(sep)`. */
  function Join(parts: seq<string>, sep: string): string {
    if parts == [] then ""
    else if |parts| == 1 then parts[0]
    else parts[0] + sep + Join(parts[1..], sep)
  }

  /** `s.substring(0, n)`. */
  function Prefix(s: string, n: nat): (r: string)
    ensures |r| == (if |s| <= n then |s| else n) && r == s[..|r|]
  {
    if |s| <= n then s else s[..n]
  }
}
