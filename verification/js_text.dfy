/**
 * The JavaScript string built-ins the transfer pipeline relies on, stated on
 * `seq<char>`: `String.prototype.trim`, the `\s` and `\d` regular-expression
 * classes, `split('\n')`, `startsWith`, `replace(/[^0-9]/g, '')`, `substring`
 * and the decimal rendering of a number inside a template literal.
 */
module JsText {

  import opened Wrappers

  /** The WhiteSpace and LineTerminator code points: what `trim` removes and `\s` matches. */
  predicate IsSpace(c: char) {
    || c == ' ' || c == '\t' || c == '\n' || c == '\U{B}' || c == '\U{C}' || c == '\r'
    || c == '\U{A0}' || c == '\U{1680}' || ('\U{2000}' <= c <= '\U{200A}')
    || c == '\U{2028}' || c == '\U{2029}' || c == '\U{202F}' || c == '\U{205F}'
    || c == '\U{3000}' || c == '\U{FEFF}'
  }

  /** The `\d` class: ASCII digits only. */
  predicate IsDigit(c: char) {
    '0' <= c <= '9'
  }

  predicate AllDigits(s: string) {
    forall i :: 0 <= i < |s| ==> IsDigit(s[i])
  }

  function TrimStart(s: string): (r: string)
    ensures |r| <= |s| && r == s[|s| - |r|..]
    ensures r == [] || !IsSpace(r[0])
    ensures forall i :: 0 <= i < |s| - |r| ==> IsSpace(s[i])
  {
    if s != [] && IsSpace(s[0]) then TrimStart(s[1..]) else s
  }

  function TrimEnd(s: string): (r: string)
    ensures |r| <= |s| && r == s[..|r|]
    ensures r == [] || !IsSpace(r[|r| - 1])
    ensures forall i :: |r| <= i < |s| ==> IsSpace(s[i])
  {
    if s != [] && IsSpace(s[|s| - 1]) then TrimEnd(s[..|s| - 1]) else s
  }

  /** `s.trim()`: the longest infix of `s` that neither starts nor ends with white space. */
  function Trim(s: string): (r: string)
    ensures |r| <= |s|
    ensures r == [] || (!IsSpace(r[0]) && !IsSpace(r[|r| - 1]))
    ensures r == [] ==> forall i :: 0 <= i < |s| ==> IsSpace(s[i])
  {
    TrimEnd(TrimStart(s))
  }

  /** `r` stands in `s` at offset `i`, and every element of `s` around it satisfies `p`. */
  predicate Amid(r: string, s: string, i: nat, p: char -> bool) {
    && i + |r| <= |s| && r == s[i..i + |r|]
    && (forall k :: 0 <= k < i ==> p(s[k]))
    && (forall k :: i + |r| <= k < |s| ==> p(s[k]))
  }

  /**
   * What `trim` keeps is the part of `s` between its leading and its trailing
   * white space: an infix of `s` with only white space around it.
   */
  lemma TrimIsInfix(s: string)
    ensures Amid(Trim(s), s, |s| - |TrimStart(s)|, IsSpace)
  {
    var t := TrimStart(s);
    AmidOfPrefixOfSuffix(s, t, TrimEnd(t), IsSpace);
    assert Trim(s) == TrimEnd(t);
  }

  /** A prefix of a suffix of `s`, cut off by elements satisfying `p`, stands amid them in `s`. */
  lemma AmidOfPrefixOfSuffix(s: string, t: string, r: string, p: char -> bool)
    requires |t| <= |s| && t == s[|s| - |t|..]
    requires |r| <= |t| && r == t[..|r|]
    requires forall k :: 0 <= k < |s| - |t| ==> p(s[k])
    requires forall k :: |r| <= k < |t| ==> p(t[k])
    ensures Amid(r, s, |s| - |t|, p)
  {
    var i := |s| - |t|;
    forall k | i + |r| <= k < |s|
      ensures p(s[k])
    {
      assert s[k] == t[k - i];
    }
  }

  /** A string that starts and ends with a non-space character is its own trim. */
  lemma TrimOfTrimmed(s: string)
    requires s != [] && !IsSpace(s[0]) && !IsSpace(s[|s| - 1])
    ensures Trim(s) == s
  {
  }

  /** Trailing white space is the only thing `trim` removes from a string with a non-space head. */
  lemma TrimDropsTrailingSpace(s: string, tail: string)
    requires s != [] && !IsSpace(s[0]) && !IsSpace(s[|s| - 1])
    requires forall i :: 0 <= i < |tail| ==> IsSpace(tail[i])
    ensures Trim(s + tail) == s
  {
    assert TrimStart(s + tail) == s + tail;
    TrimEndOfSpaces(s, tail);
  }

  lemma {:induction false} TrimEndOfSpaces(s: string, tail: string)
    requires s != [] && !IsSpace(s[|s| - 1])
    requires forall i :: 0 <= i < |tail| ==> IsSpace(tail[i])
    ensures TrimEnd(s + tail) == s
    decreases |tail|
  {
    if tail == [] {
      assert s + tail == s;
    } else {
      var shorter := tail[..|tail| - 1];
      assert (s + tail)[..|s + tail| - 1] == s + shorter;
      TrimEndOfSpaces(s, shorter);
    }
  }

  function StartsWith(s: string, prefix: string): bool {
    |prefix| <= |s| && s[..|prefix|] == prefix
  }

  /** `s.replace(/[^0-9]/g, '')`: the digits of `s`, in order. */
  function DigitsOnly(s: string): (r: string)
    ensures AllDigits(r)
    ensures |r| <= |s|
    ensures AllDigits(s) ==> r == s
  {
    if s == [] then []
    else if IsDigit(s[0]) then [s[0]] + DigitsOnly(s[1..])
    else DigitsOnly(s[1..])
  }

  /** A single character is kept exactly when it is a digit. */
  lemma DigitsOnlyChar(c: char)
    ensures DigitsOnly([c]) == if IsDigit(c) then [c] else []
  {
    assert [c][1..] == [];
  }

  /** The digits of a concatenation are the digits of each part, in order. */
  lemma {:induction false} DigitsOnlyAppend(a: string, b: string)
    ensures DigitsOnly(a + b) == DigitsOnly(a) + DigitsOnly(b)
  {
    if a != [] {
      assert (a + b)[0] == a[0];
      assert (a + b)[1..] == a[1..] + b;
      DigitsOnlyAppend(a[1..], b);
    } else {
      assert a + b == b;
    }
  }

  /** `s.substring(0, n)` for a non-negative `n`. */
  function Prefix(s: string, n: nat): (r: string)
    ensures |r| == if n < |s| then n else |s|
  {
    if n < |s| then s[..n] else s
  }

  /** `s.split(sep)` for a one-character separator; never empty, as in JavaScript. */
  function Split(s: string, sep: char): (r: seq<string>)
    ensures |r| >= 1
    ensures forall i :: 0 <= i < |r| ==> sep !in r[i]
  {
    if s == [] then [[]]
    else
      var rest := Split(s[1..], sep);
      if s[0] == sep then [[]] + rest else [[s[0]] + rest[0]] + rest[1..]
  }

  function JoinWith(parts: seq<string>, sep: char): string {
    if parts == [] then []
    else if |parts| == 1 then parts[0]
    else parts[0] + [sep] + JoinWith(parts[1..], sep)
  }

  /** Splitting and re-joining on the same separator gives back the text. */
  lemma {:induction false} SplitJoin(s: string, sep: char)
    ensures JoinWith(Split(s, sep), sep) == s
  {
    if s != [] {
      var rest := Split(s[1..], sep);
      SplitJoin(s[1..], sep);
      if s[0] == sep {
        assert Split(s, sep) == [[]] + rest;
        assert s == [sep] + s[1..];
      } else {
        var r := Split(s, sep);
        assert r == [[s[0]] + rest[0]] + rest[1..];
        if |rest| == 1 {
          assert s == [s[0]] + rest[0];
        } else {
          assert r[1..] == rest[1..];
          assert JoinWith(rest, sep) == rest[0] + [sep] + JoinWith(rest[1..], sep);
          assert s == [s[0]] + s[1..];
        }
      }
    }
  }

  lemma {:induction false} SplitWithoutSeparator(p: string, sep: char)
    requires sep !in p
    ensures Split(p, sep) == [p]
  {
    if p != [] {
      SplitWithoutSeparator(p[1..], sep);
      assert [p[0]] + p[1..] == p;
    }
  }

  lemma {:induction false} SplitAtSeparator(p: string, sep: char, rest: string)
    requires sep !in p
    ensures Split(p + [sep] + rest, sep) == [p] + Split(rest, sep)
  {
    var s := p + [sep] + rest;
    if p == [] {
      assert s[1..] == rest;
    } else {
      assert s[1..] == p[1..] + [sep] + rest;
      SplitAtSeparator(p[1..], sep, rest);
      assert [p[0]] + p[1..] == p;
    }
  }

  /** Joining lines that hold no separator and splitting again gives back the lines. */
  lemma {:induction false} JoinSplit(parts: seq<string>, sep: char)
    requires |parts| >= 1
    requires forall i :: 0 <= i < |parts| ==> sep !in parts[i]
    ensures Split(JoinWith(parts, sep), sep) == parts
  {
    if |parts| == 1 {
      SplitWithoutSeparator(parts[0], sep);
    } else {
      JoinSplit(parts[1..], sep);
      SplitAtSeparator(parts[0], sep, JoinWith(parts[1..], sep));
      assert [parts[0]] + parts[1..] == parts;
    }
  }

  function DigitChar(d: nat): char
    requires d < 10
  {
    ['0', '1', '2', '3', '4', '5', '6', '7', '8', '9'][d]
  }

  /** The decimal rendering of a natural number, as a template literal prints it. */
  function NatToString(n: nat): (r: string)
    ensures r != [] && AllDigits(r)
  {
    if n < 10 then [DigitChar(n)] else NatToString(n / 10) + [DigitChar(n % 10)]
  }

  /** The decimal rendering of an integer, with a leading minus sign when negative. */
  function IntToString(i: int): (r: string)
    ensures i >= 0 ==> r == NatToString(i)
  {
    if i < 0 then "-" + NatToString(-i) else NatToString(i)
  }

  function DigitValue(c: char): nat
    requires IsDigit(c)
  {
    (c as int) - ('0' as int)
  }

  /** The value of a run of decimal digits. */
  function DigitsValue(s: string): nat
    requires AllDigits(s)
  {
    if s == [] then 0 else DigitsValue(s[..|s| - 1]) * 10 + DigitValue(s[|s| - 1])
  }

  function LeadingDigits(s: string): (r: string)
    ensures AllDigits(r) && |r| <= |s| && r == s[..|r|]
  {
    if s != [] && IsDigit(s[0]) then [s[0]] + LeadingDigits(s[1..]) else []
  }

  /** The white space `parseInt` skips, then an optional sign: whether it is `-`, and the text after it. */
  function SignedBody(s: string): (bool, string) {
    var t := TrimStart(s);
    (t != [] && t[0] == '-', if t != [] && (t[0] == '-' || t[0] == '+') then t[1..] else t)
  }

  /** The value `v` with the sign read in front of it. */
  function Signed(negative: bool, v: nat): int {
    if negative then -(v as int) else v
  }

  /**
   * `parseInt(s, 10)`: optional white space, an optional sign, then the longest
   * run of digits; `None` stands for NaN (no digit at all).
   */
  function ParseInt(s: string): Option<int> {
    var (negative, body) := SignedBody(s);
    var digits := LeadingDigits(body);
    if digits == [] then None else Some(Signed(negative, DigitsValue(digits)))
  }

  predicate IsHexDigit(c: char) {
    IsDigit(c) || 'a' <= c <= 'f' || 'A' <= c <= 'F'
  }

  predicate AllHexDigits(s: string) {
    forall i :: 0 <= i < |s| ==> IsHexDigit(s[i])
  }

  function HexDigitValue(c: char): (v: nat)
    requires IsHexDigit(c)
    ensures v < 16
  {
    if IsDigit(c) then DigitValue(c)
    else if 'a' <= c <= 'f' then (c as int) - ('a' as int) + 10
    else (c as int) - ('A' as int) + 10
  }

  /** The value of a run of hexadecimal digits. */
  function HexValue(s: string): nat
    requires AllHexDigits(s)
  {
    if s == [] then 0 else HexValue(s[..|s| - 1]) * 16 + HexDigitValue(s[|s| - 1])
  }

  function LeadingHexDigits(s: string): (r: string)
    ensures AllHexDigits(r) && |r| <= |s| && r == s[..|r|]
  {
    if s != [] && IsHexDigit(s[0]) then [s[0]] + LeadingHexDigits(s[1..]) else []
  }

  predicate HexPrefixed(body: string) {
    |body| >= 2 && body[0] == '0' && (body[1] == 'x' || body[1] == 'X')
  }

  /**
   * `parseInt(s)` with no radix: as `parseInt(s, 10)`, except that a `0x` or
   * `0X` after the sign selects base 16 and is skipped; NaN (`None`) when no
   * digit of the chosen base follows.
   */
  function ParseIntAuto(s: string): Option<int> {
    var (negative, body) := SignedBody(s);
    if HexPrefixed(body) then
      var digits := LeadingHexDigits(body[2..]);
      if digits == [] then None else Some(Signed(negative, HexValue(digits)))
    else ParseInt(s)
  }

  /**
   * Whatever radix 10 reads as NaN is NaN without a radix too, and the two
   * differ only on text whose digits begin `0x` or `0X`, which radix 10 reads
   * as 0.
   */
  lemma ParseIntAutoAgrees(s: string)
    ensures ParseInt(s).None? ==> ParseIntAuto(s).None?
    ensures ParseIntAuto(s) != ParseInt(s) ==> HexPrefixed(SignedBody(s).1) && ParseInt(s) == Some(0)
  {
    var body := SignedBody(s).1;
    if HexPrefixed(body) {
      LeadingZeroOnly(body);
    }
  }

  /** Leading white space is skipped up to the first character that is not white space. */
  lemma {:induction false} TrimStartAfterSpace(ws: string, t: string)
    requires forall k :: 0 <= k < |ws| ==> IsSpace(ws[k])
    requires t == [] || !IsSpace(t[0])
    ensures TrimStart(ws + t) == t
  {
    if ws == [] {
      assert ws + t == t;
    } else {
      assert (ws + t)[0] == ws[0];
      assert (ws + t)[1..] == ws[1..] + t;
      TrimStartAfterSpace(ws[1..], t);
    }
  }

  lemma {:induction false} LeadingHexDigitsOf(h: string, rest: string)
    requires AllHexDigits(h)
    requires rest == [] || !IsHexDigit(rest[0])
    ensures LeadingHexDigits(h + rest) == h
  {
    if h == [] {
      assert h + rest == rest;
    } else {
      assert (h + rest)[0] == h[0];
      assert (h + rest)[1..] == h[1..] + rest;
      LeadingHexDigitsOf(h[1..], rest);
      assert [h[0]] + h[1..] == h;
    }
  }

  lemma {:induction false} LeadingDigitsOf(d: string, rest: string)
    requires AllDigits(d)
    requires rest == [] || !IsDigit(rest[0])
    ensures LeadingDigits(d + rest) == d
  {
    if d == [] {
      assert d + rest == rest;
    } else {
      assert (d + rest)[0] == d[0];
      assert (d + rest)[1..] == d[1..] + rest;
      LeadingDigitsOf(d[1..], rest);
      assert [d[0]] + d[1..] == d;
    }
  }

  /** A sign `parseInt` accepts: none, `+` or `-`. */
  predicate SignText(sign: string) {
    sign == [] || sign == ['+'] || sign == ['-']
  }

  /** The white space and sign in front of the digits, and what follows them. */
  lemma SignedBodyOf(ws: string, sign: string, t: string)
    requires forall k :: 0 <= k < |ws| ==> IsSpace(ws[k])
    requires SignText(sign)
    requires t != [] && IsDigit(t[0])
    ensures SignedBody(ws + sign + t) == (sign == ['-'], t)
  {
    var u := sign + t;
    assert ws + sign + t == ws + u;
    assert u != [] && !IsSpace(u[0]) by {
      if sign != [] {
        assert u[0] == sign[0];
      } else {
        assert u[0] == t[0];
      }
    }
    TrimStartAfterSpace(ws, u);
    SignedBodyOfTrimmed(ws + u, sign, t);
  }

  lemma SignedBodyOfTrimmed(s: string, sign: string, t: string)
    requires SignText(sign)
    requires t != [] && IsDigit(t[0])
    requires TrimStart(s) == sign + t
    ensures SignedBody(s) == (sign == ['-'], t)
  {
    if sign == [] {
      assert sign + t == t;
    } else {
      assert (sign + t)[0] == sign[0];
      assert (sign + t)[1..] == t;
    }
  }

  /**
   * Without a radix, any white space, an optional sign, `0x` or `0X` and a run
   * of hexadecimal digits read as that hexadecimal number with the sign, and
   * whatever follows the run is ignored.
   */
  lemma ParseIntAutoHex(ws: string, sign: string, x: char, h: string, rest: string)
    requires forall k :: 0 <= k < |ws| ==> IsSpace(ws[k])
    requires SignText(sign)
    requires x == 'x' || x == 'X'
    requires h != [] && AllHexDigits(h)
    requires rest == [] || !IsHexDigit(rest[0])
    ensures ParseIntAuto(ws + sign + (['0', x] + h + rest)) == Some(Signed(sign == ['-'], HexValue(h)))
  {
    var body := ['0', x] + h + rest;
    SignedBodyOf(ws, sign, body);
    HexDigitsAfterPrefix(x, h, rest);
    HexBodyParses(ws + sign + body, sign == ['-'], body, h);
  }

  lemma HexDigitsAfterPrefix(x: char, h: string, rest: string)
    requires x == 'x' || x == 'X'
    requires AllHexDigits(h)
    requires rest == [] || !IsHexDigit(rest[0])
    ensures var body := ['0', x] + h + rest;
      HexPrefixed(body) && LeadingHexDigits(body[2..]) == h
  {
    var body := ['0', x] + h + rest;
    assert body[2..] == h + rest;
    LeadingHexDigitsOf(h, rest);
  }

  lemma HexBodyParses(s: string, negative: bool, body: string, h: string)
    requires SignedBody(s) == (negative, body)
    requires HexPrefixed(body) && AllHexDigits(h) && h != [] && LeadingHexDigits(body[2..]) == h
    ensures ParseIntAuto(s) == Some(Signed(negative, HexValue(h)))
  {
  }

  /**
   * Without a radix, any white space, an optional sign and a run of decimal
   * digits that is not a lone `0` before `x` or `X` read as that decimal number
   * with the sign, exactly as with radix 10, whatever follows the run.
   */
  lemma ParseIntAutoDecimal(ws: string, sign: string, d: string, rest: string)
    requires forall k :: 0 <= k < |ws| ==> IsSpace(ws[k])
    requires SignText(sign)
    requires d != [] && AllDigits(d)
    requires rest == [] || !IsDigit(rest[0])
    requires d == ['0'] ==> rest == [] || (rest[0] != 'x' && rest[0] != 'X')
    ensures var s := ws + sign + (d + rest);
      ParseIntAuto(s) == ParseInt(s) == Some(Signed(sign == ['-'], DigitsValue(d)))
  {
    SignedBodyOf(ws, sign, d + rest);
    DecimalBodyParses(ws + sign + (d + rest), sign == ['-'], d, rest);
  }

  lemma DecimalBodyParses(s: string, negative: bool, d: string, rest: string)
    requires SignedBody(s) == (negative, d + rest)
    requires d != [] && AllDigits(d)
    requires rest == [] || !IsDigit(rest[0])
    requires d == ['0'] ==> rest == [] || (rest[0] != 'x' && rest[0] != 'X')
    ensures ParseIntAuto(s) == ParseInt(s) == Some(Signed(negative, DigitsValue(d)))
  {
    var body := d + rest;
    assert !HexPrefixed(body) by {
      if |d| >= 2 {
        assert body[1] == d[1];
      } else if |body| >= 2 {
        assert d == [d[0]];
        assert body[1] == rest[0];
      }
    }
    LeadingDigitsOf(d, rest);
  }

  lemma {:induction false} LeadingDigitsOfDigits(s: string)
    requires AllDigits(s)
    ensures LeadingDigits(s) == s
  {
    if s != [] {
      LeadingDigitsOfDigits(s[1..]);
    }
  }

  /** Text starting with a digit has no white space or sign to skip. */
  lemma SignedBodyOfDigitStart(s: string)
    requires s != [] && IsDigit(s[0])
    ensures SignedBody(s) == (false, s)
  {
    assert !IsSpace(s[0]);
  }

  /** An asset id made of decimal digits is read as that decimal number, with or without a radix. */
  lemma DecimalTextParses(s: string)
    requires s != [] && AllDigits(s)
    ensures ParseIntAuto(s) == ParseInt(s) == Some(DigitsValue(s))
  {
    SignedBodyOfDigitStart(s);
    assert !HexPrefixed(s) by {
      if |s| >= 2 {
        assert IsDigit(s[1]);
      }
    }
    LeadingDigitsOfDigits(s);
  }

  lemma HexDigitsOneA()
    ensures LeadingHexDigits("1A") == "1A" && HexValue("1A") == 26
  {
    assert "1A"[1..] == "A";
    assert LeadingHexDigits("A") == "A" by { assert "A"[1..] == ""; }
    assert "1A"[..1] == "1";
    assert HexValue("1") == 1 by { assert "1"[..0] == ""; }
  }

  /** A zero followed by a non-digit: radix 10 reads just the zero. */
  lemma LeadingZeroOnly(s: string)
    requires |s| >= 2 && s[0] == '0' && !IsDigit(s[1])
    ensures LeadingDigits(s) == "0" && DigitsValue(LeadingDigits(s)) == 0
  {
    assert LeadingDigits(s[1..]) == [];
    assert DigitsValue("0") == 0 by { assert "0"[..0] == ""; }
  }

  /** Without a radix, `0x1A` reads as 26 and a bare `0x` as NaN; with radix 10 both read as 0. */
  lemma HexPrefixExamples()
    ensures ParseIntAuto("0x1A") == Some(26) && ParseInt("0x1A") == Some(0)
    ensures ParseIntAuto("0x") == None && ParseInt("0x") == Some(0)
  {
    SignedBodyOfDigitStart("0x1A");
    SignedBodyOfDigitStart("0x");
    assert "0x1A"[2..] == "1A";
    HexDigitsOneA();
    assert "0x"[2..] == [];
    LeadingZeroOnly("0x1A");
    LeadingZeroOnly("0x");
  }
}
