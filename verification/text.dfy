/**
 * String formatting as the JavaScript runtime performs it for the values the
 * system prints: decimal integers (template literals), `padStart(2, "0")`,
 * `toFixed(1)`, `String.prototype.trim` and the `/\/$/` replacement.
 * Each printer comes with the parser that undoes it.
 */
module Text {
  import opened Numeric

  predicate IsDigit(c: char) {
    '0' <= c <= '9'
  }

  predicate AllDigits(s: string) {
    forall i :: 0 <= i < |s| ==> IsDigit(s[i])
  }

  function DigitChar(d: nat): (c: char)
    requires d < 10
    ensures IsDigit(c)
  {
    ('0' as int + d) as char
  }

  function DigitValue(c: char): (d: nat)
    requires IsDigit(c)
    ensures d < 10
  {
    c as int - '0' as int
  }

  // ---------------------------------------------------------------------------
  // Decimal integers

  /** The decimal text of a non-negative integer, without leading zeros. */
  function NatToString(n: nat): (s: string)
    ensures |s| >= 1 && AllDigits(s)
    ensures n < 10 <==> |s| == 1
    decreases n
  {
    if n < 10 then [DigitChar(n)] else NatToString(n / 10) + [DigitChar(n % 10)]
  }

  /** The value of a run of decimal digits (leading zeros allowed). */
  function ParseDigits(s: string): nat
    requires AllDigits(s)
  {
    if |s| == 0 then 0 else ParseDigits(s[..|s| - 1]) * 10 + DigitValue(s[|s| - 1])
  }

  lemma {:induction false} ParseNatToString(n: nat)
    ensures ParseDigits(NatToString(n)) == n
  {
    var s := NatToString(n);
    if n >= 10 {
      assert s[..|s| - 1] == NatToString(n / 10);
      ParseNatToString(n / 10);
    }
  }

  lemma NatToStringInjective(a: nat, b: nat)
    requires NatToString(a) == NatToString(b)
    ensures a == b
  {
    ParseNatToString(a);
    ParseNatToString(b);
  }

  /** The text JavaScript prints for an integer-valued number. */
  function IntToString(i: int): (s: string)
    ensures |s| >= 1
    ensures i < 0 <==> s[0] == '-'
  {
    if i < 0 then "-" + NatToString(-i) else NatToString(i)
  }

  /** An optional '-' followed by decimal digits. */
  predicate IsIntText(s: string) {
    && |s| >= 1
    && (s[0] == '-' ==> AllDigits(s[1..]))
    && (s[0] != '-' ==> AllDigits(s))
  }

  /** Reads back what `IntToString` prints. */
  function ParseInt(s: string): int
    requires |s| >= 1
    requires s[0] == '-' ==> AllDigits(s[1..])
    requires s[0] != '-' ==> AllDigits(s)
  {
    if s[0] == '-' then -(ParseDigits(s[1..]) as int) else ParseDigits(s)
  }

  lemma ParseIntToString(i: int)
    ensures IsIntText(IntToString(i))
    ensures ParseInt(IntToString(i)) == i
  {
    if i < 0 {
      ParseNatToString(-i);
      SignedDigits(NatToString(-i));
    } else {
      ParseNatToString(i);
      SignedDigits(NatToString(i));
    }
  }

  /** A digit run, with or without a '-' in front, is an integer text that reads back as itself. */
  lemma SignedDigits(digits: string)
    requires |digits| >= 1 && AllDigits(digits)
    ensures IsIntText(digits) && ParseInt(digits) == ParseDigits(digits)
    ensures IsIntText("-" + digits) && ParseInt("-" + digits) == -(ParseDigits(digits) as int)
  {
    assert IsDigit(digits[0]);
    assert ("-" + digits)[1..] == digits;
  }

  lemma IntToStringInjective(a: int, b: int)
    requires IntToString(a) == IntToString(b)
    ensures a == b
  {
    ParseIntToString(a);
    ParseIntToString(b);
  }

  /** `` `${n}`.padStart(2, "0") ``. */
  function Pad2(n: nat): (s: string)
    requires n < 100
    ensures |s| == 2 && AllDigits(s)
    ensures ParseDigits(s) == n
  {
    var t := NatToString(n);
    ParseNatToString(n);
    if |t| >= 2 then
      t
    else
      assert ParseDigits("0" + t) == n by {
        assert ("0" + t)[..1] == "0";
      }
      "0" + t
  }

  lemma Pad2Injective(a: nat, b: nat)
    requires a < 100 && b < 100
    requires Pad2(a) == Pad2(b)
    ensures a == b
  {
  }

  // ---------------------------------------------------------------------------
  // Number.prototype.toFixed(1)

  /**
   * The number of tenths `toFixed(1)` prints for `|x|`: the integer `n` with
   * `n / 10 - |x|` closest to zero, the larger one on a tie.
   */
  function TenthsOf(x: real): (n: nat)
    ensures Abs(x) * 10.0 - 0.5 < n as real <= Abs(x) * 10.0 + 0.5
  {
    Round(Abs(x) * 10.0)
  }

  /** `x.toFixed(1)` for `|x| < 1e21`: sign, integer part, ".", one digit. */
  function Fixed1(x: real): string {
    var n := TenthsOf(x);
    (if x < 0.0 then "-" else "") + NatToString(n / 10) + "." + [DigitChar(n % 10)]
  }

  /** The tenths `Fixed1` stands for, signed: `Number(x.toFixed(1)) * 10`. */
  function SignedTenths(x: real): int {
    if x < 0.0 then -(TenthsOf(x) as int) else TenthsOf(x)
  }

  /** Shape of a `Fixed1` text: optional '-', digits, '.', one digit. */
  predicate IsFixed1Text(s: string) {
    var body := if |s| > 0 && s[0] == '-' then s[1..] else s;
    && |body| >= 3
    && AllDigits(body[..|body| - 2])
    && body[|body| - 2] == '.'
    && IsDigit(body[|body| - 1])
  }

  /** `Number(s) * 10` for a text of the shape `toFixed(1)` produces. */
  function ParseFixed1(s: string): int
    requires IsFixed1Text(s)
  {
    var neg := |s| > 0 && s[0] == '-';
    var body := if neg then s[1..] else s;
    var magnitude := ParseDigits(body[..|body| - 2]) * 10 + DigitValue(body[|body| - 1]);
    if neg then -magnitude else magnitude
  }

  lemma Fixed1RoundTrip(x: real)
    ensures IsFixed1Text(Fixed1(x))
    ensures ParseFixed1(Fixed1(x)) == SignedTenths(x)
  {
    var n := TenthsOf(x);
    var digits := NatToString(n / 10);
    var d := DigitChar(n % 10);
    ParseNatToString(n / 10);
    Fixed1Body(digits, d);
    if x < 0.0 {
      assert Fixed1(x) == "-" + (digits + "." + [d]);
      Fixed1Negative(digits + "." + [d]);
    } else {
      assert Fixed1(x) == digits + "." + [d];
    }
  }

  /** A '-' in front of an unsigned `Fixed1` text negates what it reads as. */
  lemma Fixed1Negative(body: string)
    requires IsFixed1Text(body) && body[0] != '-'
    ensures IsFixed1Text("-" + body) && ParseFixed1("-" + body) == -ParseFixed1(body)
  {
    assert ("-" + body)[1..] == body;
  }

  lemma Fixed1Body(digits: string, d: char)
    requires |digits| >= 1 && AllDigits(digits) && IsDigit(d)
    ensures var body := digits + "." + [d];
      && |body| >= 3 && body[0] != '-'
      && body[..|body| - 2] == digits && body[|body| - 2] == '.' && body[|body| - 1] == d
      && IsFixed1Text(body) && ParseFixed1(body) == ParseDigits(digits) * 10 + DigitValue(d)
  {
    var body := digits + "." + [d];
    assert body[0] == digits[0];
    assert IsDigit(digits[0]);
    assert body[..|body| - 2] == digits;
  }

  /** Two non-negative numbers print alike under `toFixed(1)` exactly when they round to the same tenth. */
  lemma Fixed1SameText(a: real, b: real)
    requires a >= 0.0 && b >= 0.0
    ensures Fixed1(a) == Fixed1(b) <==> TenthsOf(a) == TenthsOf(b)
  {
    if Fixed1(a) == Fixed1(b) {
      Fixed1RoundTrip(a);
      Fixed1RoundTrip(b);
    }
  }

  // ---------------------------------------------------------------------------
  // String.prototype.trim

  /** ECMAScript WhiteSpace and LineTerminator code points. */
  predicate IsJsWhitespace(c: char) {
    var u := c as int;
    || u == 0x09 || u == 0x0A || u == 0x0B || u == 0x0C || u == 0x0D || u == 0x20
    || u == 0xA0 || u == 0x1680 || (0x2000 <= u <= 0x200A) || u == 0x2028
    || u == 0x2029 || u == 0x202F || u == 0x205F || u == 0x3000 || u == 0xFEFF
  }

  predicate AllWhitespace(s: string) {
    forall i :: 0 <= i < |s| ==> IsJsWhitespace(s[i])
  }

  /** Length of the leading whitespace run. */
  function LeadingWhitespace(s: string): (n: nat)
    ensures n <= |s|
    ensures AllWhitespace(s[..n])
    ensures n < |s| ==> !IsJsWhitespace(s[n])
  {
    if |s| == 0 || !IsJsWhitespace(s[0]) then 0
    else
      var m := LeadingWhitespace(s[1..]);
      assert s[..m + 1] == [s[0]] + s[1..][..m];
      m + 1
  }

  /** Length of the trailing whitespace run. */
  function TrailingWhitespace(s: string): (n: nat)
    ensures n <= |s|
    ensures AllWhitespace(s[|s| - n..])
    ensures n < |s| ==> !IsJsWhitespace(s[|s| - n - 1])
  {
    if |s| == 0 || !IsJsWhitespace(s[|s| - 1]) then 0
    else
      var m := TrailingWhitespace(s[..|s| - 1]);
      TrailingRunGrows(s, m);
      m + 1
  }

  /** A trailing run of `s` minus its last character extends by that character when it is whitespace. */
  lemma TrailingRunGrows(s: string, m: nat)
    requires 0 < |s| && m < |s| && IsJsWhitespace(s[|s| - 1])
    requires AllWhitespace(s[..|s| - 1][|s| - 1 - m..])
    requires m < |s| - 1 ==> !IsJsWhitespace(s[..|s| - 1][|s| - 2 - m])
    ensures AllWhitespace(s[|s| - (m + 1)..])
    ensures m + 1 < |s| ==> !IsJsWhitespace(s[|s| - m - 2])
  {
    var p := s[..|s| - 1];
    forall i | |s| - (m + 1) <= i < |s| ensures IsJsWhitespace(s[i]) {
      if i < |s| - 1 {
        assert s[i] == p[|s| - 1 - m..][i - (|s| - 1 - m)];
      }
    }
    if m + 1 < |s| {
      assert s[|s| - m - 2] == p[|s| - 2 - m];
    }
  }

  /** `s.trim()`: `s` without its leading and trailing whitespace. */
  function Trim(s: string): (r: string)
    ensures |r| <= |s|
  {
    var a := LeadingWhitespace(s);
    var b := TrailingWhitespace(s[a..]);
    s[a..|s| - b]
  }

  /**
   * The trimmed text is a contiguous piece of `s` between two whitespace
   * runs, with no whitespace at either end; it is empty exactly when `s`
   * is all whitespace.
   */
  lemma TrimSpec(s: string)
    ensures |Trim(s)| > 0 ==> !IsJsWhitespace(Trim(s)[0]) && !IsJsWhitespace(Trim(s)[|Trim(s)| - 1])
    ensures |Trim(s)| == 0 <==> AllWhitespace(s)
    ensures exists i :: 0 <= i <= |s| - |Trim(s)| && s[i..i + |Trim(s)|] == Trim(s)
                        && AllWhitespace(s[..i]) && AllWhitespace(s[i + |Trim(s)|..])
  {
    var a, b := TrimRuns(s);
    TrimCore(s, a, b, Trim(s));
  }

  /** The two whitespace runs `Trim` cuts away, with what their lengths' contracts say. */
  lemma TrimRuns(s: string) returns (a: nat, b: nat)
    ensures a + b <= |s| && Trim(s) == s[a..|s| - b]
    ensures AllWhitespace(s[..a]) && (a < |s| ==> !IsJsWhitespace(s[a]))
    ensures AllWhitespace(s[a..][|s| - a - b..])
    ensures a + b < |s| ==> !IsJsWhitespace(s[a..][|s| - a - b - 1])
  {
    a := LeadingWhitespace(s);
    var t := s[a..];
    b := TrailingWhitespace(t);
    assert |t| == |s| - a;
  }

  /** `TrimSpec` for the piece `r` cut between two runs that meet the run lengths' contracts. */
  lemma TrimCore(s: string, a: nat, b: nat, r: string)
    requires a + b <= |s| && r == s[a..|s| - b]
    requires AllWhitespace(s[..a]) && (a < |s| ==> !IsJsWhitespace(s[a]))
    requires AllWhitespace(s[a..][|s| - a - b..])
    requires a + b < |s| ==> !IsJsWhitespace(s[a..][|s| - a - b - 1])
    ensures |r| > 0 ==> !IsJsWhitespace(r[0]) && !IsJsWhitespace(r[|r| - 1])
    ensures |r| == 0 <==> AllWhitespace(s)
    ensures exists i :: 0 <= i <= |s| - |r| && s[i..i + |r|] == r
                        && AllWhitespace(s[..i]) && AllWhitespace(s[i + |r|..])
  {
    TrimEnds(s, a, b);
    TrimEmpty(s, a, b);
    assert s[a..a + |r|] == r;
  }

  lemma TrimEnds(s: string, a: nat, b: nat)
    requires a + b <= |s|
    requires AllWhitespace(s[..a]) && (a < |s| ==> !IsJsWhitespace(s[a]))
    requires AllWhitespace(s[a..][|s| - a - b..])
    requires a + b < |s| ==> !IsJsWhitespace(s[a..][|s| - a - b - 1])
    ensures AllWhitespace(s[..a]) && AllWhitespace(s[|s| - b..])
    ensures a + b < |s| ==> !IsJsWhitespace(s[a]) && !IsJsWhitespace(s[|s| - b - 1])
  {
    SuffixOfSuffix(s, a, b);
  }

  lemma SuffixOfSuffix<T>(s: seq<T>, a: nat, b: nat)
    requires a + b <= |s|
    ensures s[|s| - b..] == s[a..][|s| - a - b..]
    ensures a + b < |s| ==> s[|s| - b - 1] == s[a..][|s| - a - b - 1]
  {
  }

  lemma TrimEmpty(s: string, a: nat, b: nat)
    requires a + b <= |s|
    requires AllWhitespace(s[..a]) && (a < |s| ==> !IsJsWhitespace(s[a]))
    requires AllWhitespace(s[a..][|s| - a - b..])
    ensures a + b == |s| <==> AllWhitespace(s)
  {
    assert a + b == |s| ==> s[a..][|s| - a - b..] == s[a..];
    RunStartsAt(s, a);
    assert a == |s| ==> s[..a] == s;
  }

  lemma RunStartsAt(s: string, a: nat)
    requires a <= |s|
    ensures a < |s| && AllWhitespace(s[a..]) ==> IsJsWhitespace(s[a])
  {
    assert a < |s| ==> s[a..][0] == s[a];
  }

  /** Text that neither starts nor ends with whitespace is left as it is. */
  lemma TrimUntouched(r: string)
    requires |r| > 0 ==> !IsJsWhitespace(r[0]) && !IsJsWhitespace(r[|r| - 1])
    ensures Trim(r) == r
  {
    assert LeadingWhitespace(r) == 0;
    assert r[0..] == r;
    assert TrailingWhitespace(r) == 0;
  }

  lemma TrimIdempotent(s: string)
    ensures Trim(Trim(s)) == Trim(s)
  {
    TrimSpec(s);
    TrimUntouched(Trim(s));
  }

  // ---------------------------------------------------------------------------
  // String.prototype.replace(/\/$/, "")

  /** Removes one '/' at the very end of `s`, if there is one. */
  function StripTrailingSlash(s: string): (r: string)
    ensures s == r + "/" || (r == s && (|s| == 0 || s[|s| - 1] != '/'))
  {
    if |s| > 0 && s[|s| - 1] == '/' then s[..|s| - 1] else s
  }
}
