/**
 * The pieces of JavaScript string and number semantics that the service relies on:
 * the global `parseInt` (called without a radix), the decimal text of an integral
 * Number (what a template literal `${n}` inserts), `String.prototype.endsWith` and
 * `String.prototype.includes`.
 */
module JsText {
  import opened Wrappers

  /** ECMAScript StrWhiteSpaceChar: the WhiteSpace and LineTerminator code points that parseInt skips. */
  predicate IsJsWhitespace(c: char) {
    var n := c as int;
    n == 0x09 || n == 0x0A || n == 0x0B || n == 0x0C || n == 0x0D || n == 0x20 ||
    n == 0xA0 || n == 0x1680 || (0x2000 <= n <= 0x200A) || n == 0x2028 || n == 0x2029 ||
    n == 0x202F || n == 0x205F || n == 0x3000 || n == 0xFEFF
  }

  predicate AllWhitespace(s: string) {
    forall i {:trigger IsJsWhitespace(s[i])} :: 0 <= i < |s| ==> IsJsWhitespace(s[i])
  }

  /** Removes the leading whitespace, as parseInt does before anything else. */
  function TrimStart(s: string): (t: string)
    ensures |t| <= |s| && t == s[|s| - |t|..]
    ensures t == [] || !IsJsWhitespace(t[0])
  {
    if s != [] && IsJsWhitespace(s[0]) then TrimStart(s[1..]) else s
  }

  /** The two radixes parseInt uses when it is called without one. */
  type Radix = r: nat | r == 10 || r == 16 witness 10

  /** The value of `c` as a digit in any radix up to 36, or -1 when it is no digit at all. */
  function DigitValue(c: char): int {
    if '0' <= c <= '9' then c as int - '0' as int
    else if 'a' <= c <= 'z' then c as int - 'a' as int + 10
    else if 'A' <= c <= 'Z' then c as int - 'A' as int + 10
    else -1
  }

  predicate IsDigitIn(c: char, radix: Radix) {
    0 <= DigitValue(c) < radix
  }

  predicate AllDigits(d: string, radix: Radix) {
    forall i {:trigger IsDigitIn(d[i], radix)} :: 0 <= i < |d| ==> IsDigitIn(d[i], radix)
  }

  /** The longest prefix of `s` made of digits of the radix. */
  function DigitPrefix(s: string, radix: Radix): (d: string)
    ensures |d| <= |s| && d == s[..|d|]
    ensures AllDigits(d, radix)
    ensures |d| == |s| || !IsDigitIn(s[|d|], radix)
  {
    if s != [] && IsDigitIn(s[0], radix) then [s[0]] + DigitPrefix(s[1..], radix) else []
  }

  /** The number a string of digits denotes, most significant digit first. */
  function DigitsValue(d: string, radix: Radix): int
    requires AllDigits(d, radix)
  {
    if d == [] then 0
    else (if radix == 16 then 16 else 10) * DigitsValue(d[..|d| - 1], radix) + DigitValue(d[|d| - 1])
  }

  /** Whether `t` starts with a minus sign. */
  predicate IsNegative(t: string) {
    t != [] && t[0] == '-'
  }

  /** `t` with one leading `+` or `-` removed. */
  function AfterSign(t: string): string {
    if t != [] && (t[0] == '-' || t[0] == '+') then t[1..] else t
  }

  predicate HasHexPrefix(u: string) {
    |u| >= 2 && u[0] == '0' && (u[1] == 'x' || u[1] == 'X')
  }

  /** The value of the longest run of radix digits at the start of `b`; None when there is none. */
  function ReadDigits(b: string, radix: Radix): Option<int> {
    var digits := DigitPrefix(b, radix);
    if digits == [] then None else Some(DigitsValue(digits, radix))
  }

  /** The unsigned part: radix 16 after a `0x`/`0X` prefix, radix 10 otherwise. */
  function ReadMagnitude(u: string): Option<int> {
    if HasHexPrefix(u) then ReadDigits(u[2..], 16) else ReadDigits(u, 10)
  }

  /**
   * The global parseInt(s) with no radix argument: skip leading whitespace, take an
   * optional sign, switch to radix 16 after a `0x`/`0X` prefix (radix 10 otherwise),
   * then read the longest run of digits. None stands for NaN (no digit was found).
   */
  function ParseInt(s: string): Option<int> {
    var t := TrimStart(s);
    var magnitude := ReadMagnitude(AfterSign(t));
    if magnitude.Some? && IsNegative(t) then Some(-magnitude.value) else magnitude
  }

  function DigitChar(d: nat): char
    requires d < 10
  {
    ('0' as int + d) as char
  }

  /** Decimal digits of a natural number, without leading zeros. */
  function Digits(n: nat): (d: string)
    ensures d != []
    ensures AllDigits(d, 10)
    ensures d[0] == '0' ==> n == 0 && |d| == 1
  {
    if n < 10 then [DigitChar(n)] else Digits(n / 10) + [DigitChar(n % 10)]
  }

  /** The text a template literal inserts for an integral Number: `-` followed by the digits when negative. */
  function NumberText(n: int): string {
    if n < 0 then "-" + Digits(-n) else Digits(n)
  }

  predicate EndsWith(s: string, suffix: string) {
    |suffix| <= |s| && s[|s| - |suffix|..] == suffix
  }

  /** `s.includes(part)`: `part` occurs somewhere in `s`. */
  predicate Includes(s: string, part: string)
  {
    |part| <= |s| && (s[..|part|] == part || Includes(s[1..], part))
  }

  // ---------------------------------------------------------------------------
  // Properties of parseInt and of the decimal text of a number.

  lemma {:induction false} DigitsValueOfDigits(n: nat)
    ensures DigitsValue(Digits(n), 10) == n
  {
    if n >= 10 {
      var d := Digits(n);
      assert d[..|d| - 1] == Digits(n / 10);
      DigitsValueOfDigits(n / 10);
    }
  }

  lemma {:induction false} DigitPrefixOfDigits(d: string, rest: string, radix: Radix)
    requires AllDigits(d, radix)
    requires rest == [] || !IsDigitIn(rest[0], radix)
    ensures DigitPrefix(d + rest, radix) == d
  {
    if d != [] {
      assert (d + rest)[1..] == d[1..] + rest;
      DigitPrefixOfDigits(d[1..], rest, radix);
    }
  }

  lemma {:induction false} TrimStartSkipsWhitespace(ws: string, t: string)
    requires AllWhitespace(ws)
    requires t == [] || !IsJsWhitespace(t[0])
    ensures TrimStart(ws + t) == t
  {
    if ws != [] {
      assert (ws + t)[1..] == ws[1..] + t;
      TrimStartSkipsWhitespace(ws[1..], t);
    }
  }

  /** parseInt skips any leading whitespace. */
  lemma ParseIntSkipsWhitespace(ws: string, s: string)
    requires AllWhitespace(ws)
    requires s == [] || !IsJsWhitespace(s[0])
    ensures ParseInt(ws + s) == ParseInt(s)
  {
    TrimStartSkipsWhitespace(ws, s);
    TrimStartOfTrimmed(s);
    var m := ReadMagnitude(AfterSign(s));
    ParseIntFromStages(ws + s, s, m);
    ParseIntFromStages(s, s, m);
  }

  lemma TrimStartOfTrimmed(s: string)
    requires s == [] || !IsJsWhitespace(s[0])
    ensures TrimStart(s) == s
  {
  }

  /** parseInt as the composition of its stages, for a text whose stages are known. */
  lemma ParseIntFromStages(s: string, t: string, m: Option<int>)
    requires TrimStart(s) == t && ReadMagnitude(AfterSign(t)) == m
    ensures ParseInt(s) == if m.Some? && IsNegative(t) then Some(-m.value) else m
  {
  }

  /** How parseInt splits a string that starts with the sign `c` followed by an unsigned `u`. */
  lemma SignStages(c: char, u: string)
    requires c == '-' || c == '+'
    requires u == [] || (u[0] != '+' && u[0] != '-' && !IsJsWhitespace(u[0]))
    ensures TrimStart([c] + u) == [c] + u
    ensures AfterSign([c] + u) == u
    ensures IsNegative([c] + u) == (c == '-')
  {
    var t := [c] + u;
    assert t[0] == c && t[1..] == u;
    assert !IsJsWhitespace(c);
    TrimStartOfTrimmed(t);
  }

  lemma UnsignedStages(u: string)
    requires u == [] || (u[0] != '+' && u[0] != '-' && !IsJsWhitespace(u[0]))
    ensures TrimStart(u) == u && AfterSign(u) == u && !IsNegative(u)
  {
  }

  /** A leading `-` negates what the rest reads as, and a leading `+` changes nothing. */
  lemma ParseIntSign(u: string)
    requires u == [] || (u[0] != '+' && u[0] != '-' && !IsJsWhitespace(u[0]))
    ensures ParseInt(['-'] + u) == if ParseInt(u).None? then None else Some(-ParseInt(u).value)
    ensures ParseInt(['+'] + u) == ParseInt(u)
  {
    UnsignedStages(u);
    ParseIntFromStages(u, u, ReadMagnitude(u));
    ParseIntMinus(u);
    ParseIntPlus(u);
  }

  lemma ParseIntMinus(u: string)
    requires u == [] || (u[0] != '+' && u[0] != '-' && !IsJsWhitespace(u[0]))
    ensures var m := ReadMagnitude(u);
      ParseInt(['-'] + u) == if m.Some? then Some(-m.value) else None
  {
    SignStages('-', u);
    ParseIntFromStages(['-'] + u, ['-'] + u, ReadMagnitude(u));
  }

  lemma ParseIntPlus(u: string)
    requires u == [] || (u[0] != '+' && u[0] != '-' && !IsJsWhitespace(u[0]))
    ensures ParseInt(['+'] + u) == ReadMagnitude(u)
  {
    SignStages('+', u);
    ParseIntFromStages(['+'] + u, ['+'] + u, ReadMagnitude(u));
  }

  /**
   * The decimal reading of parseInt: a maximal run of decimal digits (not a `0`
   * followed by `x` or `X`, which would select radix 16) gives its value, and
   * anything after the digits is ignored.
   */
  lemma ParseIntDecimal(d: string, rest: string)
    requires d != [] && AllDigits(d, 10)
    requires rest == [] || !IsDigitIn(rest[0], 10)
    requires !(d == "0" && rest != [] && (rest[0] == 'x' || rest[0] == 'X'))
    ensures ParseInt(d + rest) == Some(DigitsValue(d, 10))
  {
    var u := d + rest;
    DecimalStart(d, rest, u);
    UnsignedStages(u);
    DigitPrefixOfDigits(d, rest, 10);
    ParseIntFromStages(u, u, Some(DigitsValue(d, 10)));
  }

  /** A text that starts with decimal digits has no sign, no leading whitespace and, unless it is `0x`, no hex prefix. */
  lemma DecimalStart(d: string, rest: string, u: string)
    requires d != [] && AllDigits(d, 10)
    requires !(d == "0" && rest != [] && (rest[0] == 'x' || rest[0] == 'X'))
    requires u == d + rest
    ensures u[0] != '+' && u[0] != '-' && !IsJsWhitespace(u[0])
    ensures !HasHexPrefix(u)
  {
    assert u[0] == d[0] && IsDigitIn(d[0], 10);
    if |u| >= 2 && u[0] == '0' {
      if |d| >= 2 { assert u[1] == d[1] && IsDigitIn(d[1], 10); } else { assert d == "0" && u[1] == rest[0]; }
    }
  }

  /** Where no digit (and no sign) starts the text, parseInt gives NaN. */
  lemma ParseIntNoDigit(s: string)
    requires s == [] || (!IsDigitIn(s[0], 10) && !IsJsWhitespace(s[0]) && s[0] != '+' && s[0] != '-')
    ensures ParseInt(s) == None
  {
    assert TrimStart(s) == s && AfterSign(s) == s;
  }

  /** Without a radix, a `0x` prefix makes parseInt read hexadecimal digits. */
  lemma ParseIntHexExamples()
    ensures ParseInt("0x1A") == Some(26)
    ensures ParseInt("0x") == None
  {
    assert DigitPrefix("1A", 16) == "1A";
    assert "1A"[..1] == "1";
    assert DigitsValue("1A", 16) == 26;
    ParseIntFromStages("0x1A", "0x1A", Some(26));
  }

  /** Where the text that follows cannot continue a number, parseInt reads back a natural number's digits. */
  lemma ParseIntOfDigits(m: nat, rest: string)
    requires rest == [] || (!IsDigitIn(rest[0], 10) && rest[0] != 'x' && rest[0] != 'X')
    ensures ParseInt(Digits(m) + rest) == Some(m)
  {
    DigitsValueOfDigits(m);
    ParseIntDecimal(Digits(m), rest);
  }

  lemma DigitsStartUnsigned(m: nat, rest: string)
    ensures var u := Digits(m) + rest; u[0] != '+' && u[0] != '-' && !IsJsWhitespace(u[0])
  {
    var d := Digits(m);
    assert (d + rest)[0] == d[0];
    assert IsDigitIn(d[0], 10);
  }

  /**
   * parseInt reads back exactly the integer whose decimal text a template literal
   * inserts, for every integer n, whatever follows the text (unless it could
   * continue the number).
   */
  lemma ParseIntOfNumberText(n: int, rest: string)
    requires rest == [] || (!IsDigitIn(rest[0], 10) && rest[0] != 'x' && rest[0] != 'X')
    ensures ParseInt(NumberText(n) + rest) == Some(n)
  {
    if n < 0 {
      ParseIntOfNegative(-n, rest, NumberText(n) + rest);
    } else {
      ParseIntOfDigits(n, rest);
    }
  }

  lemma ParseIntOfNegative(m: nat, rest: string, s: string)
    requires rest == [] || (!IsDigitIn(rest[0], 10) && rest[0] != 'x' && rest[0] != 'X')
    requires s == ['-'] + (Digits(m) + rest)
    ensures ParseInt(s) == Some(-(m as int))
  {
    ParseIntOfDigits(m, rest);
    DigitsStartUnsigned(m, rest);
    ParseIntSign(Digits(m) + rest);
  }

  /** Every name that ends in some text also includes it. */
  lemma {:induction false} EndsWithIncludes(s: string, part: string)
    requires EndsWith(s, part)
    ensures Includes(s, part)
  {
    if |part| < |s| && s[..|part|] != part {
      assert s[1..][|s[1..]| - |part|..] == s[|s| - |part|..];
      EndsWithIncludes(s[1..], part);
    }
  }
}
