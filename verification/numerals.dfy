/**
 * Decimal numerals as Python renders and reads them: `str(n)`, `int(s)`,
 * and the zero-padded fields `%Y`, `%m`, `%d`, `%H`, `%M`, `%S` of
 * `strftime`.
 */
module Numerals {
  import opened Wrappers
  import opened PyText

  predicate IsDigit(c: char) {
    '0' <= c <= '9'
  }

  predicate AllDigits(s: string) {
    forall i :: 0 <= i < |s| ==> IsDigit(s[i])
  }

  function DigitValue(c: char): (d: nat)
    requires IsDigit(c)
    ensures d < 10
  {
    c as int - '0' as int
  }

  function DigitChar(d: nat): (c: char)
    requires d < 10
    ensures IsDigit(c) && DigitValue(c) == d
  {
    ('0' as int + d) as char
  }

  /** The value of a string of decimal digits (the empty string reads as 0). */
  function DigitsValue(s: string): nat
    requires AllDigits(s)
  {
    if s == [] then 0 else 10 * DigitsValue(s[..|s| - 1]) + DigitValue(s[|s| - 1])
  }

  /** `str(n)` for a natural number: non-empty digits, no leading zero, reading back as `n`. */
  function NatStr(n: nat): (s: string)
    ensures s != [] && AllDigits(s)
    ensures |s| > 1 ==> s[0] != '0'
    ensures DigitsValue(s) == n
  {
    if n < 10 then [DigitChar(n)]
    else
      var front := NatStr(n / 10);
      var s := front + [DigitChar(n % 10)];
      assert s[..|s| - 1] == front;
      s
  }

  /** `str(i)` for an integer. */
  function IntStr(i: int): string {
    if i < 0 then "-" + NatStr(-i) else NatStr(i)
  }

  /**
   * `int(s)` on a byte string in Python 2: surrounding whitespace, an
   * optional sign, more whitespace after the sign (`strtol` skips it again
   * once past the sign), then one or more digits; anything else raises
   * ValueError (None here).
   */
  function ParseInt(s: string): Option<int> {
    ParseStripped(Strip(s))
  }

  /** `int()` once the surrounding whitespace is gone. */
  function ParseStripped(t: string): Option<int> {
    if t != [] && (t[0] == '-' || t[0] == '+') then
      match AfterSign(t[1..])
      case None => None
      case Some(v) => Some(if t[0] == '-' then -v else v)
    else if t != [] && AllDigits(t) then Some(DigitsValue(t))
    else None
  }

  /** The magnitude after a sign: whitespace, then one or more digits. */
  function AfterSign(rest: string): Option<int> {
    var ds := LStrip(rest);
    if ds != [] && AllDigits(ds) then Some(DigitsValue(ds)) else None
  }

  /** `int(str(i)) == i`. */
  lemma ParseIntStr(i: int)
    ensures ParseInt(IntStr(i)) == Some(i)
  {
    if i < 0 {
      var s := IntStr(i);
      assert s[1..] == NatStr(-i);
      ParseIntNegative(s);
    } else {
      ParseIntDigits(NatStr(i));
    }
  }

  /**
   * A sign, then a text ending in a digit: the sign applied to what
   * `AfterSign` reads after it. With `AfterSignSpaced` this covers every
   * sign, whitespace, digits text.
   */
  lemma ParseIntSigned(s: string, v: int)
    requires |s| >= 2 && (s[0] == '+' || s[0] == '-') && IsDigit(s[|s| - 1])
    requires AfterSign(s[1..]) == Some(v)
    ensures ParseInt(s) == Some(if s[0] == '-' then -v else v)
  {
    var tail := s[1..];
    assert s == [s[0]] + tail;
    ParseIntSignTail(s[0], tail, v);
  }

  lemma ParseIntSignTail(sign: char, tail: string, v: int)
    requires (sign == '+' || sign == '-') && tail != [] && IsDigit(tail[|tail| - 1])
    requires AfterSign(tail) == Some(v)
    ensures ParseInt([sign] + tail) == Some(if sign == '-' then -v else v)
  {
    var s := [sign] + tail;
    var x := if sign == '-' then -v else v;
    SignedTextUnpadded(sign, tail);
    ParseStrippedSigned(sign, tail, v, s, x);
    ParseIntOfStripped(s, x);
  }

  /** A sign, then text ending in a digit, carries no surrounding whitespace. */
  lemma SignedTextUnpadded(sign: char, tail: string)
    requires (sign == '+' || sign == '-') && tail != [] && IsDigit(tail[|tail| - 1])
    ensures Strip([sign] + tail) == [sign] + tail
  {
    var s := [sign] + tail;
    assert s[|s| - 1] == tail[|tail| - 1];
    StripUnpadded(s);
  }

  /** Whitespace, then digits: the digits' value. */
  lemma AfterSignSpaced(gap: string, ds: string)
    requires ds != [] && AllDigits(ds)
    requires forall i :: 0 <= i < |gap| ==> IsSpace(gap[i])
    ensures AfterSign(gap + ds) == Some(DigitsValue(ds))
  {
    LStripSpaces(gap, ds);
  }

  /** A signed text reads as its sign applied to what `AfterSign` reads. */
  lemma ParseStrippedSigned(sign: char, tail: string, v: int, s: string, x: int)
    requires (sign == '+' || sign == '-') && s == [sign] + tail
    requires AfterSign(tail) == Some(v) && x == (if sign == '-' then -v else v)
    ensures ParseStripped(s) == Some(x)
  {
    assert s[0] == sign && s[1..] == tail;
  }

  /** A text without surrounding whitespace reads as it stands. */
  lemma ParseIntOfStripped(s: string, x: int)
    requires Strip(s) == s && ParseStripped(s) == Some(x)
    ensures ParseInt(s) == Some(x)
  {
  }

  /** Leading whitespace before a non-blank text is stripped away entirely. */
  lemma LStripSpaces(gap: string, rest: string)
    requires forall i :: 0 <= i < |gap| ==> IsSpace(gap[i])
    requires rest != [] && !IsSpace(rest[0])
    ensures LStrip(gap + rest) == rest
  {
    var s := gap + rest;
    var r := LStrip(s);
    assert s[|gap|] == rest[0];
    assert |r| == |rest|;
    assert r == s[|gap|..];
  }

  /** One whitespace character, then one digit: the digit's value. */
  lemma AfterSignOneSpace(space: char, d: char)
    requires IsSpace(space) && IsDigit(d)
    ensures AfterSign([space, d]) == Some(DigitValue(d))
  {
    var gap, ds := [space], [d];
    assert DigitsValue(ds) == DigitValue(d) by { assert ds[..0] == []; }
    AfterSignSpaced(gap, ds);
    assert gap + ds == [space, d];
  }

  /** `int("+ 5") == 5`: a space between the sign and the digits is skipped. */
  lemma ParseIntSpacedPlus(space: char)
    requires space == ' '
    ensures ParseInt(['+', space, '5']) == Some(5)
  {
    var s := ['+', space, '5'];
    AfterSignOneSpace(space, '5');
    assert s[1..] == [space, '5'];
    ParseIntSigned(s, 5);
  }

  /** `int("- 7") == -7`: the same after a minus sign. */
  lemma ParseIntSpacedMinus(space: char)
    requires space == ' '
    ensures ParseInt(['-', space, '7']) == Some(-7)
  {
    var s := ['-', space, '7'];
    AfterSignOneSpace(space, '7');
    assert s[1..] == [space, '7'];
    ParseIntSigned(s, 7);
  }

  lemma ParseIntDigits(ds: string)
    requires ds != [] && AllDigits(ds)
    ensures ParseInt(ds) == Some(DigitsValue(ds))
  {
    assert !IsSpace(ds[0]) && !IsSpace(ds[|ds| - 1]);
    StripUnpadded(ds);
  }

  lemma ParseIntNegative(s: string)
    requires |s| >= 2 && s[0] == '-' && AllDigits(s[1..])
    ensures ParseInt(s) == Some(-(DigitsValue(s[1..]) as int))
  {
    SignedUnpadded(s);
    var t := Strip(s);
    assert t[0] == '-' && t[1..] == s[1..];
    assert !IsSpace(s[1]);
    assert AfterSign(t[1..]) == Some(DigitsValue(s[1..]));
  }

  /** A sign before digits carries no surrounding whitespace. */
  lemma SignedUnpadded(s: string)
    requires |s| >= 2 && !IsSpace(s[0]) && AllDigits(s[1..])
    ensures Strip(s) == s
  {
    var ds := s[1..];
    assert s[|s| - 1] == ds[|ds| - 1];
    assert IsDigit(ds[|ds| - 1]);
    StripUnpadded(s);
  }

  /** A two-digit zero-padded field, as `%m` or `%H` print it. */
  function Pad2(n: nat): (s: string)
    requires n < 100
    ensures |s| == 2 && AllDigits(s) && DigitsValue(s) == n
  {
    var s := [DigitChar(n / 10), DigitChar(n % 10)];
    DigitsValueOfTwo(s);
    s
  }

  /** A four-digit zero-padded field, as `%Y` prints it. */
  function Pad4(n: nat): (s: string)
    requires n < 10000
    ensures |s| == 4 && AllDigits(s) && DigitsValue(s) == n
  {
    var s := Pad2(n / 100) + Pad2(n % 100);
    DigitsValueOfFour(s);
    s
  }

  lemma DigitsValueOfTwo(s: string)
    requires |s| == 2 && AllDigits(s)
    ensures DigitsValue(s) == 10 * DigitValue(s[0]) + DigitValue(s[1])
  {
    var front := s[..1];
    assert front == [s[0]] && front[..0] == [];
    assert DigitsValue(front) == DigitValue(s[0]);
    assert s[..|s| - 1] == front;
  }

  lemma DigitsValueOfFour(s: string)
    requires |s| == 4 && AllDigits(s)
    ensures DigitsValue(s) == 100 * DigitsValue(s[..2]) + DigitsValue(s[2..])
  {
    assert s[..3][..2] == s[..2];
    DigitsValueOfTwo(s[2..]);
  }

  /** Reading a two-digit field and printing it again gives the same characters. */
  lemma Pad2OfDigits(s: string)
    requires |s| == 2 && AllDigits(s)
    ensures DigitsValue(s) < 100 && Pad2(DigitsValue(s)) == s
  {
    DigitsValueOfTwo(s);
    assert DigitChar(DigitValue(s[0])) == s[0];
  }

  /** Reading a four-digit field and printing it again gives the same characters. */
  lemma Pad4OfDigits(s: string)
    requires |s| == 4 && AllDigits(s)
    ensures DigitsValue(s) < 10000 && Pad4(DigitsValue(s)) == s
  {
    var hi, lo := s[..2], s[2..];
    DigitsValueOfFour(s);
    Pad2OfDigits(hi);
    Pad2OfDigits(lo);
    var v := DigitsValue(s);
    HundredsOf(DigitsValue(hi), DigitsValue(lo));
    assert Pad4(v) == Pad2(DigitsValue(hi)) + Pad2(DigitsValue(lo));
    assert hi + lo == s;
  }

  lemma HundredsOf(hi: nat, lo: nat)
    requires lo < 100
    ensures (100 * hi + lo) / 100 == hi && (100 * hi + lo) % 100 == lo
  {
  }
}
