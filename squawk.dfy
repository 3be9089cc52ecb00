/**
 * The Mode A identity code (src/adsb/squawk.rs): four octal digits taken
 * from the Mode A/C code and written as a decimal number, so that the
 * identity 7500 reads 7500.
 */
module Squawk {
  import opened Wrappers
  import opened Bits
  import opened MaCode

  /** `((code >> a) & 1) << 2 | ((code >> b) & 1) << 1 | (code >> c) & 1`: three code bits as one octal digit. */
  function Octal(code: nat, a: nat, b: nat, c: nat): (d: nat)
    ensures d <= 7
  {
    BitOf(code, a) * 4 + BitOf(code, b) * 2 + BitOf(code, c)
  }

  /** `squawk`: the digits at code bits (8, 10, 12), (3, 5, 7), (9, 11, 13) and (2, 4, 6) of `ma_code`. */
  function Squawk(m: seq<Nibble>): (r: Option<nat>)
    requires |m| >= 8
    ensures r.Some? && r.value <= 7777
  {
    SquawkOf(MaCodeOf(m))
  }

  /** The match on the Mode A/C code: no code, no squawk. */
  function SquawkOf(code: Option<nat>): (r: Option<nat>)
    ensures r.Some? <==> code.Some?
  {
    match code
    case Some(c) =>
      Some(Octal(c, 8, 10, 12) * 1000 + Octal(c, 3, 5, 7) * 100 + Octal(c, 9, 11, 13) * 10 + Octal(c, 2, 4, 6))
    case None => None
  }

  /** An octal digit made of three reply bits, the most significant first. */
  function Digit(m: seq<Nibble>, p4: nat, p2: nat, p1: nat): (d: nat)
    requires 1 <= p4 <= 4 * |m| && 1 <= p2 <= 4 * |m| && 1 <= p1 <= 4 * |m|
    ensures d <= 7
  {
    MsgBit(m, p4) * 4 + MsgBit(m, p2) * 2 + MsgBit(m, p1)
  }

  /**
   * The squawk is the identity ABCD of the reply: the pulses in bits 20-32
   * are C1 A1 C2 A2 C4 A4 X B1 D1 B2 D2 B4 D4, and each digit is
   * 4 * x4 + 2 * x2 + x1 of its pulses.
   */
  lemma SquawkIsIdentity(m: seq<Nibble>)
    requires |m| >= 8
    ensures Squawk(m).Some?
    ensures Squawk(m).value == Digit(m, 25, 23, 21) * 1000 + Digit(m, 31, 29, 27) * 100
                              + Digit(m, 24, 22, 20) * 10 + Digit(m, 32, 30, 28)
  {
    var code := MaValue(m);
    OctalIsDigit(m, 5, 3, 1);
    OctalIsDigit(m, 10, 8, 6);
    OctalIsDigit(m, 4, 2, 0);
    OctalIsDigit(m, 11, 9, 7);
  }

  /** The octal digit at code bits 13-i, 13-j, 13-k is the digit of the message bits flags i, j, k copy. */
  lemma OctalIsDigit(m: seq<Nibble>, i: nat, j: nat, k: nat)
    requires |m| >= 8 && i < 14 && j < 14 && k < 14
    ensures MaPositions[i] <= 4 * |m| && MaPositions[j] <= 4 * |m| && MaPositions[k] <= 4 * |m|
    ensures Octal(MaValue(m), 13 - i, 13 - j, 13 - k)
            == Digit(m, MaPositions[i], MaPositions[j], MaPositions[k])
  {
    MaCodeBits(m, i);
    MaCodeBits(m, j);
    MaCodeBits(m, k);
    MaFlagsAreBits(m, i);
    MaFlagsAreBits(m, j);
    MaFlagsAreBits(m, k);
  }

  /** Every decimal digit of the squawk is an octal digit: no 8 or 9 appears and the value is at most 7777. */
  lemma SquawkDigits(m: seq<Nibble>)
    requires |m| >= 8
    ensures Squawk(m).Some?
    ensures var s := Squawk(m).value;
      s <= 7777 && s / 1000 <= 7 && s / 100 % 10 <= 7 && s / 10 % 10 <= 7 && s % 10 <= 7
  {
    var code := MaValue(m);
    OctalDecimal(Octal(code, 8, 10, 12), Octal(code, 3, 5, 7), Octal(code, 9, 11, 13), Octal(code, 2, 4, 6));
  }

  /** Four digits at most 7, written in decimal, are read back one by one. */
  lemma OctalDecimal(a: nat, b: nat, c: nat, d: nat)
    requires a <= 7 && b <= 7 && c <= 7 && d <= 7
    ensures var s := a * 1000 + b * 100 + c * 10 + d;
      s <= 7777 && s / 1000 == a && s / 100 % 10 == b && s / 10 % 10 == c && s % 10 == d
  {
    var s := a * 1000 + b * 100 + c * 10 + d;
    DivUnique(s, 1000, a, b * 100 + c * 10 + d);
    DivUnique(s, 100, a * 10 + b, c * 10 + d);
    DivUnique(a * 10 + b, 10, a, b);
    DivUnique(s, 10, a * 100 + b * 10 + c, d);
    DivUnique(a * 100 + b * 10 + c, 10, a * 10 + b, c);
  }

  /** The squawk of a reply whose four pulse groups read a, b, c and d. */
  lemma SquawkOfDigits(m: seq<Nibble>, a: nat, b: nat, c: nat, d: nat)
    requires |m| >= 8
    requires Digit(m, 25, 23, 21) == a && Digit(m, 31, 29, 27) == b
    requires Digit(m, 24, 22, 20) == c && Digit(m, 32, 30, 28) == d
    ensures Squawk(m) == Some(a * 1000 + b * 100 + c * 10 + d)
  {
    SquawkIsIdentity(m);
  }

  /** "A800189A805CE93F8004F6F2BCA4": nibbles 4-7 are 1, 8, 9, A and the squawk is 5611. */
  lemma SquawkVector1(m: seq<Nibble>)
    requires |m| >= 8 && m[4] == 1 && m[5] == 8 && m[6] == 9 && m[7] == 10
    ensures Squawk(m) == Some(5611)
  {
    assert Digit(m, 25, 23, 21) == 5;
    assert Digit(m, 31, 29, 27) == 6;
    assert Digit(m, 24, 22, 20) == 1;
    assert Digit(m, 32, 30, 28) == 1;
    SquawkOfDigits(m, 5, 6, 1, 1);
  }

  /** "2800189F714598": nibbles 4-7 are 1, 8, 9, F and the squawk is 5617. */
  lemma SquawkVector2(m: seq<Nibble>)
    requires |m| >= 8 && m[4] == 1 && m[5] == 8 && m[6] == 9 && m[7] == 15
    ensures Squawk(m) == Some(5617)
  {
    assert Digit(m, 25, 23, 21) == 5;
    assert Digit(m, 31, 29, 27) == 6;
    assert Digit(m, 24, 22, 20) == 1;
    assert Digit(m, 32, 30, 28) == 7;
    SquawkOfDigits(m, 5, 6, 1, 7);
  }
}
