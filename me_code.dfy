/**
 * The ME code of an extended squitter (src/adsb/me_code.rs): the 12-bit
 * altitude field, bits 41-52, shifted up two places with bit 48 (the Q bit)
 * copied into bit 0, so it has the layout of a 13-bit altitude code.
 */
module MeCode {
  import opened Wrappers
  import opened Bits
  import opened Calc

  /**
   * `me_code`: `(value << 2) | flag` over bits 41-52 with flag bit 48, cast to
   * `u16`.  The span is never empty, so the extraction is always `Some`.
   */
  function MeCode(m: seq<Nibble>): (r: Option<nat>)
    requires |m| >= 13
    ensures r.Some?
    ensures r.value == Field(m, 41, 52) * 4 + MsgBit(m, 48)
  {
    var fv := FlagAndRangeValue(m, 48, 41, 52).value;
    MeCodeFits(m);
    Some(ShiftOr(fv.1, fv.0))
  }

  /** The code is a 14-bit value, so the `u16` cast loses nothing. */
  lemma MeCodeFits14(m: seq<Nibble>)
    requires |m| >= 13
    ensures MeCode(m).value < Pow2(14)
  {
    FieldBound(m, 41, 52);
    Pow2Twelve();
  }

  /** The two low bits of the code are 0 (bit 1, the M position) and the Q bit, bit 48. */
  lemma MeCodeLowBits(m: seq<Nibble>)
    requires |m| >= 13
    ensures MeCode(m).value % 4 == MsgBit(m, 48)
    ensures BitOf(MeCode(m).value, 1) == 0
  {
    var x := MeCode(m).value;
    LowBits(Field(m, 41, 52), MsgBit(m, 48), x);
  }

  /** The branch bits of the code: bit 0 is the Q bit (bit 48) and bit 1 is clear. */
  lemma MeCodeBranchBits(m: seq<Nibble>)
    requires |m| >= 13
    ensures MeCode(m).value % 2 == MsgBit(m, 48)
    ensures MeCode(m).value / 2 % 2 == 0
  {
    LowTwoBits(Field(m, 41, 52), MsgBit(m, 48), MeCode(m).value);
  }

  lemma LowTwoBits(f: nat, b: nat, x: nat)
    requires b < 2 && x == f * 4 + b
    ensures x % 2 == b && x / 2 % 2 == 0
  {
    DivUnique(x, 2, 2 * f, b);
    DivUnique(2 * f, 2, f, 0);
  }

  lemma LowBits(f: nat, b: nat, x: nat)
    requires b < 2 && x == f * 4 + b
    ensures x % 4 == b && BitOf(x, 1) == 0
  {
    Pow2Small();
    assert x / 2 == 2 * f;
  }

  /** `((value << 2) | flag) as u16` on a `u32` value. */
  function ShiftOr(value: nat, flag: nat): nat
  {
    ((value * 4) % U32 + flag) % 0x1_0000
  }

  /** The shifted value stays below 2^14: neither the `u32` shift nor the `u16` cast loses a bit. */
  lemma MeCodeFits(m: seq<Nibble>)
    requires |m| >= 13
    ensures FlagAndRangeValue(m, 48, 41, 52).Some?
    ensures var fv := FlagAndRangeValue(m, 48, 41, 52).value;
      ShiftOr(fv.1, fv.0) == Field(m, 41, 52) * 4 + MsgBit(m, 48)
  {
    FlagAndRangeValueReadsField(m, 48, 41, 52);
    FieldBound(m, 41, 52);
    Pow2Twelve();
    ShiftInFlag(Field(m, 41, 52), MsgBit(m, 48));
  }

  lemma Pow2Twelve()
    ensures Pow2(12) == 4096 && Pow2(14) == 16384 && Pow2(1) == 2
  {
    Pow2Small();
    Pow2Add(4, 8);
    Pow2Add(4, 4);
    Pow2Add(2, 12);
  }

  /** `(f << 2) | b` on a 12-bit f and a bit b: no bit is lost and bit 1 is clear. */
  lemma ShiftInFlag(f: nat, b: nat)
    requires f < 4096 && b < 2
    ensures ShiftOr(f % U32, b) == f * 4 + b
  {
    assert f % U32 == f;
    assert (f * 4) % U32 == f * 4;
    assert (f * 4 + b) / 2 == 2 * f;
  }

  /** "8D40621D58C382D690C8AC2863A7": nibbles 10-12 are C, 3, 8 and the code is 12513. */
  lemma MeCodeVector1(m: seq<Nibble>)
    requires |m| >= 13 && m[10] == 12 && m[11] == 3 && m[12] == 8
    ensures MeCode(m).value == 12513
  {
    MeCodeNibbles(m);
  }

  /** "8DA7F6429B053D0000000060D7AE": nibbles 10-12 are 0, 5, 3 and the code is 333. */
  lemma MeCodeVector2(m: seq<Nibble>)
    requires |m| >= 13 && m[10] == 0 && m[11] == 5 && m[12] == 3
    ensures MeCode(m).value == 333
  {
    MeCodeNibbles(m);
  }

  /** Squitters that agree on nibbles 10-12 have the same code. */
  lemma MeCodeSame(m: seq<Nibble>, m': seq<Nibble>)
    requires |m| >= 13 && |m'| >= 13
    requires m[10] == m'[10] && m[11] == m'[11] && m[12] == m'[12]
    ensures MeCode(m).value == MeCode(m').value
  {
    assert m[10..13] == m'[10..13];
    FieldOfSameNibbles(m, m', 10, 13, 41, 52);
    FieldOfSameNibbles(m, m', 10, 13, 48, 48);
    assert MsgBit(m, 48) == Field(m, 48, 48) && MsgBit(m', 48) == Field(m', 48, 48) by {
      assert Field(m, 48, 47) == 0 && Field(m', 48, 47) == 0;
    }
  }

  /** The code in terms of nibbles 10-12. */
  lemma MeCodeNibbles(m: seq<Nibble>)
    requires |m| >= 13
    ensures MeCode(m).value == (m[10] as int * 256 + m[11] as int * 16 + m[12] as int) * 4 + m[11] as int % 2
  {
    FieldSplit(m, 41, 48, 52);
    FieldSplit(m, 41, 44, 48);
    WholeNibble(m, 10);
    WholeNibble(m, 11);
    WholeNibble(m, 12);
    MsgBitInNibble(m, 11, 3);
    Pow2Small();
  }
}
