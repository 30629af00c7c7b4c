/**
 * The JavaScript string built-ins the upload code relies on: `endsWith`,
 * `slice(0, -1)`, `substring(start)`, `split(sep).pop()` and the global
 * `parseInt(string)` with no radix (ECMA-262, section 19.2.5).
 * JavaScript strings are sequences of UTF-16 code units; here a string is a
 * sequence of `char`, which are Unicode scalar values, so a character outside
 * the Basic Multilingual Plane is one element here and two code units there.
 */
module JsText {
  import opened Wrappers

  /** `s.endsWith(suffix)` */
  predicate EndsWith(s: string, suffix: string) {
    |suffix| <= |s| && s[|s| - |suffix|..] == suffix
  }

  /** `s.startsWith(prefix)` */
  predicate StartsWith(s: string, prefix: string) {
    |prefix| <= |s| && s[..|prefix|] == prefix
  }

  /** `s.slice(0, -1)`: the string without its last character; "" stays "". */
  function DropLast(s: string): (r: string)
    ensures |r| == if s == [] then 0 else |s| - 1
    ensures r <= s
  {
    if s == [] then [] else s[..|s| - 1]
  }

  /** `s.substring(start)` for a non-negative `start`, which is clamped to the length. */
  function Substring(s: string, start: nat): (r: string)
    ensures |r| == if start <= |s| then |s| - start else 0
    ensures start <= |s| ==> s == s[..start] + r
  {
    if start <= |s| then s[start..] else []
  }

  /** `s.split(sep)` for a one-character separator: the pieces between separators. */
  function Split(s: string, sep: char): (pieces: seq<string>)
    ensures |pieces| >= 1
    ensures forall i :: 0 <= i < |pieces| ==> sep !in pieces[i]
    ensures |pieces| == 1 <==> sep !in s
  {
    if s == [] then [[]]
    else
      var rest := Split(s[1..], sep);
      if s[0] == sep then [[]] + rest
      else [[s[0]] + rest[0]] + rest[1..]
  }

  /** `pieces.join(sep)`, the inverse of `Split`. */
  function Join(pieces: seq<string>, sep: char): string {
    if |pieces| == 0 then []
    else if |pieces| == 1 then pieces[0]
    else pieces[0] + [sep] + Join(pieces[1..], sep)
  }

  /** `pieces.pop()` as a value: the last element. */
  function Last(pieces: seq<string>): string
    requires |pieces| >= 1
  {
    pieces[|pieces| - 1]
  }

  /** Joining the pieces of a split gives back the original string. */
  lemma {:induction false} SplitJoin(s: string, sep: char)
    ensures Join(Split(s, sep), sep) == s
  {
    if s != [] {
      var rest := Split(s[1..], sep);
      SplitJoin(s[1..], sep);
      if s[0] == sep {
        JoinAfterEmpty(rest, sep);
      } else {
        JoinPrependChar(s[0], rest, sep);
      }
      assert s == [s[0]] + s[1..];
    }
  }

  /** A leading empty piece contributes just the separator. */
  lemma JoinAfterEmpty(pieces: seq<string>, sep: char)
    requires |pieces| >= 1
    ensures Join([[]] + pieces, sep) == [sep] + Join(pieces, sep)
  {
    assert ([[]] + pieces)[1..] == pieces;
  }

  /** A character put in front of the first piece comes first in the join. */
  lemma JoinPrependChar(c: char, pieces: seq<string>, sep: char)
    requires |pieces| >= 1
    ensures Join([[c] + pieces[0]] + pieces[1..], sep) == [c] + Join(pieces, sep)
  {
    var ps := [[c] + pieces[0]] + pieces[1..];
    if |pieces| > 1 {
      assert ps[1..] == pieces[1..];
    }
  }

  /**
   * The last piece of `s.split(sep)` is the text after the last `sep`, or the
   * whole string when `sep` does not occur in it.
   */
  lemma {:induction false} LastPieceAfterLastSeparator(s: string, sep: char)
    ensures var r := Last(Split(s, sep));
      && |r| <= |s| && s[|s| - |r|..] == r && sep !in r
      && (|r| < |s| ==> s[|s| - |r| - 1] == sep)
      && (|r| == |s| <==> sep !in s)
  {
    if s != [] {
      var rest := Split(s[1..], sep);
      LastPieceAfterLastSeparator(s[1..], sep);
      LastOfSplit(s, sep);
      if s[0] == sep {
        assert s[0] in s;
      } else if |rest| == 1 {
        assert s == [s[0]] + s[1..];
      } else {
        assert sep in s[1..];
        var k :| 0 <= k < |s[1..]| && s[1..][k] == sep;
        assert s[k + 1] == sep;
      }
    }
  }

  /** The last piece of a split, one character at a time. */
  lemma LastOfSplit(s: string, sep: char)
    requires s != []
    ensures var rest := Split(s[1..], sep);
      Last(Split(s, sep)) == if s[0] != sep && |rest| == 1 then [s[0]] + rest[0] else Last(rest)
  {
    var rest := Split(s[1..], sep);
    var ps := Split(s, sep);
    if s[0] == sep {
      assert ps == [[]] + rest;
    } else {
      assert ps == [[s[0]] + rest[0]] + rest[1..];
    }
  }

  // ---------------------------------------------------------------------------
  // parseInt(string) with no radix argument
  // ---------------------------------------------------------------------------

  /** The StrWhiteSpaceChar code points (WhiteSpace and LineTerminator) of ECMA-262. */
  predicate IsJsWhiteSpace(c: char) {
    || c == '\t' || c == '\U{000B}' || c == '\U{000C}' || c == ' '
    || c == '\U{00A0}' || c == '\U{FEFF}' || c == '\n' || c == '\r'
    || c == '\U{2028}' || c == '\U{2029}' || c == '\U{1680}'
    || ('\U{2000}' <= c <= '\U{200A}') || c == '\U{202F}' || c == '\U{205F}'
    || c == '\U{3000}'
  }

  predicate IsDecimalDigit(c: char) {
    '0' <= c <= '9'
  }

  /** A digit of radix 10 or 16, the two radixes `parseInt` without a radix uses. */
  predicate IsRadixDigit(c: char, hex: bool) {
    IsDecimalDigit(c) || (hex && ('a' <= c <= 'f' || 'A' <= c <= 'F'))
  }

  function DigitValue(c: char, hex: bool): (d: nat)
    requires IsRadixDigit(c, hex)
    ensures d < (if hex then 16 else 10)
    ensures IsDecimalDigit(c) ==> d < 10
  {
    if IsDecimalDigit(c) then c as int - '0' as int
    else if 'a' <= c <= 'f' then c as int - 'a' as int + 10
    else c as int - 'A' as int + 10
  }

  /** Leading white space removed. */
  function TrimStart(s: string): (r: string)
    ensures |r| <= |s| && s[|s| - |r|..] == r
    ensures r == [] || !IsJsWhiteSpace(r[0])
    ensures forall i :: 0 <= i < |s| - |r| ==> IsJsWhiteSpace(s[i])
  {
    if s != [] && IsJsWhiteSpace(s[0]) then TrimStart(s[1..]) else s
  }

  /** The longest prefix of `s` made of digits of the radix. */
  function LeadingDigits(s: string, hex: bool): (z: string)
    ensures z <= s
    ensures forall i :: 0 <= i < |z| ==> IsRadixDigit(z[i], hex)
    ensures |z| < |s| ==> !IsRadixDigit(s[|z|], hex)
  {
    if s != [] && IsRadixDigit(s[0], hex) then [s[0]] + LeadingDigits(s[1..], hex) else []
  }

  /** The number the digits denote, most significant first. */
  function DigitsValue(z: string, hex: bool): nat
    requires forall i :: 0 <= i < |z| ==> IsRadixDigit(z[i], hex)
  {
    if z == [] then 0
    else DigitsValue(z[..|z| - 1], hex) * (if hex then 16 else 10) + DigitValue(z[|z| - 1], hex)
  }

  /**
   * The unsigned part of `parseInt`: radix 16 after a `0x`/`0X` prefix,
   * radix 10 otherwise, then the longest run of digits; `None` when there is
   * no digit.
   */
  function ParseUnsigned(u: string): Option<nat> {
    var hex := |u| >= 2 && u[0] == '0' && (u[1] == 'x' || u[1] == 'X');
    var z := LeadingDigits(if hex then u[2..] else u, hex);
    if z == [] then None else Some(DigitsValue(z, hex))
  }

  /**
   * `parseInt(s)`: skip leading white space, take an optional sign, then read
   * the unsigned number. `None` stands for `NaN`.
   */
  function ParseInt(s: string): Option<int> {
    var t := TrimStart(s);
    var negative := t != [] && t[0] == '-';
    var u := if t != [] && (t[0] == '-' || t[0] == '+') then t[1..] else t;
    match ParseUnsigned(u)
    case None => None
    case Some(v) => Some(if negative then -(v as int) else v as int)
  }

  function DigitChar(d: nat): (c: char)
    requires d < 10
    ensures IsDecimalDigit(c) && DigitValue(c, false) == d
  {
    (d + '0' as int) as char
  }

  /** The canonical decimal text of a natural number (`String(n)`). */
  function DecimalText(n: nat): (r: string)
    ensures |r| >= 1
    ensures forall i :: 0 <= i < |r| ==> IsDecimalDigit(r[i])
    ensures r[0] == '0' <==> n == 0
    ensures n >= 10 <==> |r| >= 2
  {
    if n < 10 then [DigitChar(n)] else DecimalText(n / 10) + [DigitChar(n % 10)]
  }

  lemma {:induction false} DecimalTextValue(n: nat)
    ensures DigitsValue(DecimalText(n), false) == n
  {
    var r := DecimalText(n);
    if n >= 10 {
      DecimalTextValue(n / 10);
      assert r[..|r| - 1] == DecimalText(n / 10);
    } else {
      assert r[..0] == [];
    }
  }

  /** The leading run of digits stops exactly where the digits stop. */
  lemma {:induction false} LeadingDigitsOfPrefix(p: string, rest: string, hex: bool)
    requires forall i :: 0 <= i < |p| ==> IsRadixDigit(p[i], hex)
    requires rest == [] || !IsRadixDigit(rest[0], hex)
    ensures LeadingDigits(p + rest, hex) == p
  {
    if p == [] {
      assert p + rest == rest;
    } else {
      LeadingDigitsOfPrefix(p[1..], rest, hex);
      assert (p + rest)[1..] == p[1..] + rest;
      assert p == [p[0]] + p[1..];
    }
  }

  /**
   * The unsigned reading of a decimal number followed by anything that is not
   * a digit (nor, after a lone "0", an "x" or "X") is that number.
   */
  lemma ParseUnsignedOfDecimalPrefix(n: nat, rest: string)
    requires rest == [] || !IsDecimalDigit(rest[0])
    requires n == 0 ==> rest == [] || (rest[0] != 'x' && rest[0] != 'X')
    ensures ParseUnsigned(DecimalText(n) + rest) == Some(n)
  {
    var u := DecimalText(n) + rest;
    assert u[0] == DecimalText(n)[0];
    if n >= 10 {
      assert u[1] == DecimalText(n)[1];
    }
    LeadingDigitsOfPrefix(DecimalText(n), rest, false);
    DecimalTextValue(n);
  }

  /**
   * `parseInt` reads the leading decimal number and ignores whatever follows
   * it (such as a unit letter), except that "0" followed by "x" or "X" would
   * switch to hexadecimal.
   */
  lemma ParseIntOfDecimalPrefix(n: nat, rest: string)
    requires rest == [] || !IsDecimalDigit(rest[0])
    requires n == 0 ==> rest == [] || (rest[0] != 'x' && rest[0] != 'X')
    ensures ParseInt(DecimalText(n) + rest) == Some(n)
  {
    var s := DecimalText(n) + rest;
    assert IsDecimalDigit(s[0]) by {
      assert s[0] == DecimalText(n)[0];
    }
    ParseUnsignedOfDecimalPrefix(n, rest);
    ParseIntOfDigitStart(s);
  }

  /** Text that starts with a digit has no white space or sign to skip. */
  lemma ParseIntOfDigitStart(s: string)
    requires s != [] && IsDecimalDigit(s[0])
    ensures ParseInt(s) == match ParseUnsigned(s) case None => None case Some(v) => Some(v as int)
  {
    assert !IsJsWhiteSpace(s[0]);
    assert TrimStart(s) == s;
    assert s[0] != '-' && s[0] != '+';
  }

  /** A leading minus sign negates the number read. */
  lemma ParseIntOfNegativeDecimalPrefix(n: nat, rest: string)
    requires rest == [] || !IsDecimalDigit(rest[0])
    requires n == 0 ==> rest == [] || (rest[0] != 'x' && rest[0] != 'X')
    ensures ParseInt("-" + DecimalText(n) + rest) == Some(-(n as int))
  {
    var u := DecimalText(n) + rest;
    var s := "-" + DecimalText(n) + rest;
    assert s == ['-'] + u;
    assert s[0] == '-' && s[1..] == u;
    assert TrimStart(s) == s;
    ParseUnsignedOfDecimalPrefix(n, rest);
  }

  /** A string that starts with anything but white space, a sign or a digit is `NaN`. */
  lemma ParseIntNoLeadingDigit(s: string)
    requires s != [] && !IsJsWhiteSpace(s[0]) && !IsDecimalDigit(s[0])
    requires s[0] != '-' && s[0] != '+'
    ensures ParseInt(s) == None
  {
  }
}
