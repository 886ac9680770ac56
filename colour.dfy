/**
 * The colour argument of `/embed` (Bot.js:249, 262-265): every `#` is
 * removed, the rest is read as a base-16 integer, and when that read fails
 * the fixed purple 0x7d2ae8 is used instead.
 *
 * The read is Python's `int(text, 16)` restricted to ASCII text: surrounding
 * whitespace, one optional sign, an optional `0x`/`0X` prefix that may be
 * followed by one underscore, then hex digits with single underscores
 * between them.
 */
module Colour {
  import opened Wrappers

  /** The colour used when the argument is omitted (Bot.js:249). */
  const DefaultArgument: string := "#7d2ae8"

  /** The colour used when the argument does not parse (Bot.js:265). */
  const Fallback: int := 0x7d2ae8

  /** `color.replace("#", "")`: every `#`, wherever it stands, is dropped. */
  function StripHash(s: string): (r: string)
    ensures multiset(r) == multiset(s)['#' := 0]
    ensures '#' !in r
    ensures '#' !in s ==> r == s
  {
    if s == [] then []
    else
      assert s == [s[0]] + s[1..];
      (if s[0] == '#' then [] else [s[0]]) + StripHash(s[1..])
  }

  /** The first character of a non-empty `a + b` comes from `a`. */
  lemma StripHashStep(a: string, b: string)
    requires a != []
    ensures StripHash(a + b) == (if a[0] == '#' then [] else [a[0]]) + StripHash(a[1..] + b)
  {
    assert (a + b)[1..] == a[1..] + b;
  }

  /** Stripping works piece by piece, so the kept characters stay in their order. */
  lemma {:induction false} StripHashAppend(a: string, b: string)
    ensures StripHash(a + b) == StripHash(a) + StripHash(b)
  {
    if a == [] {
      assert a + b == b;
    } else {
      StripHashStep(a, b);
      StripHashAppend(a[1..], b);
      ConcatAssoc(if a[0] == '#' then [] else [a[0]], StripHash(a[1..]), StripHash(b));
    }
  }

  lemma ConcatAssoc(x: string, y: string, z: string)
    ensures x + (y + z) == (x + y) + z
  {
  }

  /** A single character is dropped iff it is `#`. */
  lemma StripHashChar(c: char)
    ensures StripHash([c]) == if c == '#' then [] else [c]
  {
    assert [c][1..] == [];
  }

  /**
   * The ASCII characters Python's `int()` skips around a number: space, tab,
   * line feed, vertical tab, form feed and carriage return.
   */
  predicate IsSpace(c: char) {
    c == ' ' || 9 <= c as int <= 13
  }

  function TrimLeft(s: string): (r: string)
    ensures |r| <= |s| && r == s[|s| - |r|..]
    ensures forall i :: 0 <= i < |s| - |r| ==> IsSpace(s[i])
    ensures r != [] ==> !IsSpace(r[0])
  {
    if s != [] && IsSpace(s[0]) then TrimLeft(s[1..]) else s
  }

  function TrimRight(s: string): (r: string)
    ensures |r| <= |s| && r == s[..|r|]
    ensures forall i :: |r| <= i < |s| ==> IsSpace(s[i])
    ensures r != [] ==> !IsSpace(r[|r| - 1])
  {
    if s != [] && IsSpace(s[|s| - 1]) then TrimRight(s[..|s| - 1]) else s
  }

  predicate IsHexDigit(c: char) {
    '0' <= c <= '9' || 'a' <= c <= 'f' || 'A' <= c <= 'F'
  }

  predicate AllHexDigits(s: string) {
    forall i :: 0 <= i < |s| ==> IsHexDigit(s[i])
  }

  function DigitValue(c: char): (v: nat)
    requires IsHexDigit(c)
    ensures v < 16
  {
    if c <= '9' then c as int - '0' as int
    else if c <= 'F' then c as int - 'A' as int + 10
    else c as int - 'a' as int + 10
  }

  function Pow16(n: nat): (p: nat)
    ensures p >= 1
  {
    if n == 0 then 1 else 16 * Pow16(n - 1)
  }

  /** The value of a string of hex digits, most significant digit first. */
  function HexValue(s: string): (v: nat)
    requires AllHexDigits(s)
    ensures v < Pow16(|s|)
  {
    if s == [] then 0 else 16 * HexValue(s[..|s| - 1]) + DigitValue(s[|s| - 1])
  }

  /** Hex digits with single underscores between them, as `int()` accepts. */
  predicate IsDigitGroups(s: string) {
    && |s| > 0
    && IsHexDigit(s[0])
    && IsHexDigit(s[|s| - 1])
    && (forall i :: 0 <= i < |s| ==> IsHexDigit(s[i]) || s[i] == '_')
    && NoDoubleUnderscore(s)
  }

  /** No two underscores stand side by side. */
  predicate NoDoubleUnderscore(s: string) {
    |s| < 2 || (!(s[0] == '_' && s[1] == '_') && NoDoubleUnderscore(s[1..]))
  }

  /** Plain hex digits hold no underscore at all, so no pair of them. */
  lemma {:induction false} HexDigitsNoDoubleUnderscore(s: string)
    requires AllHexDigits(s)
    ensures NoDoubleUnderscore(s)
  {
    if |s| >= 2 {
      assert IsHexDigit(s[0]);
      HexDigitsNoDoubleUnderscore(s[1..]);
    }
  }

  /** The digits of a digit-group string, underscores dropped. */
  function Digits(s: string): (r: string)
    requires forall i :: 0 <= i < |s| ==> IsHexDigit(s[i]) || s[i] == '_'
    ensures AllHexDigits(r)
    ensures AllHexDigits(s) ==> r == s
  {
    if s == [] then []
    else (if s[0] == '_' then [] else [s[0]]) + Digits(s[1..])
  }

  /** The base prefix `0x`/`0X`, and one underscore straight after it. */
  function StripPrefix(u: string): string {
    if |u| >= 2 && u[0] == '0' && (u[1] == 'x' || u[1] == 'X') then
      if |u| >= 3 && u[2] == '_' then u[3..] else u[2..]
    else u
  }

  /** One leading `+` or `-`, if there is one. */
  function StripSign(u: string): string {
    if |u| > 0 && (u[0] == '-' || u[0] == '+') then u[1..] else u
  }

  /** What `int()` reads after the sign: an optional prefix, then digit groups. */
  function ReadMagnitude(v: string): Option<nat> {
    var body := StripPrefix(v);
    if IsDigitGroups(body) then Some(HexValue(Digits(body))) else None
  }

  /** What `int()` reads once the whitespace is gone: a sign, then the magnitude. */
  function ReadSigned(u: string): Option<int> {
    match ReadMagnitude(StripSign(u))
    case None => None
    case Some(m) => Some(if |u| > 0 && u[0] == '-' then -(m as int) else m)
  }

  /** `int(t, 16)`: `None` where Python raises `ValueError`. */
  function ParseInt16(t: string): Option<int> {
    ReadSigned(TrimRight(TrimLeft(t)))
  }

  /** The colour an `/embed` call uses for its `color` argument. */
  function ParseColour(color: string): int {
    match ParseInt16(StripHash(color))
    case Some(v) => v
    case None => Fallback
  }

  /** Text that neither starts nor ends with whitespace is not trimmed. */
  lemma TrimUnpadded(u: string)
    requires u != [] && !IsSpace(u[0]) && !IsSpace(u[|u| - 1])
    ensures ParseInt16(u) == ReadSigned(u)
  {
    assert TrimLeft(u) == u;
    assert TrimRight(u) == u;
  }

  /** A string of plain hex digits parses to its base-16 value. */
  lemma PlainHexParses(t: string)
    requires t != [] && AllHexDigits(t)
    ensures ParseInt16(t) == Some(HexValue(t))
  {
    assert !IsSpace(t[0]) && !IsSpace(t[|t| - 1]) by {
      assert IsHexDigit(t[0]) && IsHexDigit(t[|t| - 1]);
    }
    assert ReadSigned(t) == Some(HexValue(t)) by {
      assert StripSign(t) == t by { assert IsHexDigit(t[0]); }
      PlainMagnitude(t);
      SignedRead(t, HexValue(t));
    }
    TrimUnpadded(t);
  }

  /** Text whose unsigned part reads as `v` is read as `v`, negated after a `-`. */
  lemma SignedRead(u: string, v: nat)
    requires u != [] && ReadMagnitude(StripSign(u)) == Some(v)
    ensures ReadSigned(u) == Some(if u[0] == '-' then -(v as int) else v)
  {
  }

  /** Plain hex digits carry no prefix and no underscores. */
  lemma PlainMagnitude(t: string)
    requires t != [] && AllHexDigits(t)
    ensures ReadMagnitude(t) == Some(HexValue(t))
  {
    assert StripPrefix(t) == t by {
      if |t| >= 2 { assert IsHexDigit(t[1]); }
    }
    assert IsHexDigit(t[0]) && IsHexDigit(t[|t| - 1]);
    HexDigitsNoDoubleUnderscore(t);
    assert IsDigitGroups(t);
    assert Digits(t) == t;
  }

  /**
   * A colour argument that is hex digits once its `#`s are removed yields
   * the value of those digits.
   */
  lemma HexColourParses(color: string)
    requires StripHash(color) != [] && AllHexDigits(StripHash(color))
    ensures ParseColour(color) == HexValue(StripHash(color))
  {
    PlainHexParses(StripHash(color));
  }

  /** The default argument yields the fallback colour itself. */
  lemma DefaultArgumentParses()
    ensures ParseColour(DefaultArgument) == Fallback
  {
    assert ToHex(0x7d2ae8) == "7d2ae8" by {
      assert ToHex(0x7d) == "7d";
      assert ToHex(0x7d2) == "7d2";
      assert ToHex(0x7d2a) == "7d2a";
      assert ToHex(0x7d2ae) == "7d2ae";
    }
    assert DefaultArgument == "#" + ToHex(Fallback);
    EveryColourReachable(Fallback);
  }

  /** The characters that can occur in a colour argument that parses. */
  predicate IsColourChar(c: char) {
    IsHexDigit(c) || IsSpace(c) || c in "+-xX_#"
  }

  /**
   * Any character outside that alphabet makes the parse fail, so the
   * fallback colour is used.
   */
  lemma StrayCharacterFallsBack(color: string, i: nat)
    requires i < |color| && !IsColourChar(color[i])
    ensures ParseColour(color) == Fallback
  {
    var c := color[i];
    var t := StripHash(color);
    assert c in multiset(color);
    assert c in multiset(t);
    var j :| 0 <= j < |t| && t[j] == c;
    var k := KeptByTrimLeft(t, j);
    var l := KeptByTrimRight(TrimLeft(t), k);
    var u := TrimRight(TrimLeft(t));
    var m := KeptBySign(u, l);
    var n := KeptByPrefix(StripSign(u), m);
    assert !IsDigitGroups(StripPrefix(StripSign(u))) by {
      assert StripPrefix(StripSign(u))[n] == c;
    }
  }

  lemma KeptByTrimLeft(t: string, j: nat) returns (k: nat)
    requires j < |t| && !IsSpace(t[j])
    ensures k < |TrimLeft(t)| && TrimLeft(t)[k] == t[j]
  {
    k := j - (|t| - |TrimLeft(t)|);
  }

  lemma KeptByTrimRight(t: string, j: nat) returns (k: nat)
    requires j < |t| && !IsSpace(t[j])
    ensures k < |TrimRight(t)| && TrimRight(t)[k] == t[j]
  {
    k := j;
  }

  lemma KeptBySign(u: string, j: nat) returns (k: nat)
    requires j < |u| && u[j] != '+' && u[j] != '-'
    ensures k < |StripSign(u)| && StripSign(u)[k] == u[j]
  {
    k := if |u| > 0 && (u[0] == '-' || u[0] == '+') then j - 1 else j;
  }

  lemma KeptByPrefix(v: string, j: nat) returns (k: nat)
    requires j < |v| && v[j] != '0' && v[j] != 'x' && v[j] != 'X' && v[j] != '_'
    ensures k < |StripPrefix(v)| && StripPrefix(v)[k] == v[j]
  {
    k := j;
    if |v| >= 2 && v[0] == '0' && (v[1] == 'x' || v[1] == 'X') {
      k := if |v| >= 3 && v[2] == '_' then j - 3 else j - 2;
    }
  }

  /** The argument `"not-a-color"` is posted with the fallback colour. */
  lemma NotAColourFallsBack()
    ensures ParseColour("not-a-color") == Fallback
  {
    StrayCharacterFallsBack("not-a-color", 0);
  }

  /**
   * The ASCII separators below the space (here U+001C) are not whitespace to
   * `int()`, so a colour that starts with one falls back.
   */
  lemma SeparatorFallsBack()
    ensures ParseColour([28 as char] + "ff") == Fallback
  {
    StrayCharacterFallsBack([28 as char] + "ff", 0);
  }

  /** The hex spelling of a non-negative integer, most significant digit first. */
  function ToHex(n: nat): (s: string)
    ensures s != [] && AllHexDigits(s)
    decreases n
  {
    if n < 16 then [HexDigit(n)] else ToHex(n / 16) + [HexDigit(n % 16)]
  }

  function HexDigit(d: nat): (c: char)
    requires d < 16
    ensures IsHexDigit(c) && DigitValue(c) == d
  {
    if d < 10 then ('0' as int + d) as char else ('a' as int + d - 10) as char
  }

  /** Reading back the hex spelling of a number gives the number. */
  lemma {:induction false} HexRoundTrip(n: nat)
    ensures HexValue(ToHex(n)) == n
    decreases n
  {
    if n >= 16 {
      HexRoundTrip(n / 16);
      var s := ToHex(n);
      assert s[..|s| - 1] == ToHex(n / 16);
    }
  }

  /** Every non-negative colour value can be requested as `#` and its hex spelling. */
  lemma EveryColourReachable(n: nat)
    ensures ParseColour("#" + ToHex(n)) == n
  {
    var s := "#" + ToHex(n);
    assert StripHash(s) == StripHash(ToHex(n)) by {
      assert s == ['#'] + ToHex(n);
      assert s[1..] == ToHex(n);
    }
    assert '#' !in ToHex(n);
    HexColourParses(s);
    HexRoundTrip(n);
  }

  /** Six digits, the usual `#rrggbb` form, always give a 24-bit colour. */
  lemma SixDigitsFitRgb(color: string)
    requires |StripHash(color)| == 6 && AllHexDigits(StripHash(color))
    ensures 0 <= ParseColour(color) < 0x1000000
  {
    HexColourParses(color);
    assert Pow16(6) == 0x1000000;
  }

  /** A leading minus sign before plain hex digits is read as a negative number. */
  lemma NegativeHexParses(t: string)
    requires t != [] && AllHexDigits(t)
    ensures ParseInt16("-" + t) == Some(-(HexValue(t) as int))
  {
    var u := "-" + t;
    assert |u| > 1 && u[0] == '-' && AllHexDigits(u[1..]) && HexValue(u[1..]) == HexValue(t) by {
      assert u[1..] == t;
    }
    assert !IsSpace(u[|u| - 1]) by {
      assert u[|u| - 1] == t[|t| - 1] && IsHexDigit(t[|t| - 1]);
    }
    NegativeRead(u);
    TrimUnpadded(u);
  }

  /** The signed read of a minus sign before plain hex digits. */
  lemma NegativeRead(u: string)
    requires |u| > 1 && u[0] == '-' && AllHexDigits(u[1..])
    ensures ReadSigned(u) == Some(-(HexValue(u[1..]) as int))
  {
    PlainMagnitude(u[1..]);
    SignedRead(u, HexValue(u[1..]));
  }

  /**
   * The parse does not check the range of a colour: a minus sign is read
   * and the negative value is used as it is.
   */
  lemma NegativeColourAccepted(n: nat)
    ensures ParseColour("-" + ToHex(n)) == -(n as int)
  {
    assert '#' !in "-" + ToHex(n);
    NegativeHexParses(ToHex(n));
    HexRoundTrip(n);
  }
}
