/**
 * Barometric altitude (src/decoder/adsb/altitude/mod.rs).  The altitude code of
 * a reply or squitter becomes feet in one of three ways, chosen by its two low
 * bits: the Gray look-up when both are clear, the 25-ft count when only bit 0
 * (Q) is set, the metric count when bit 1 (M) is set.  Values of 100000 ft or
 * more are dropped.
 *
 * `AltitudeAsWritten` is the function as the source has it: its Gray branch
 * calls `graytobin(message)`, which always decodes the Mode A/C code of the
 * message, even for DF 17 where the code came from the ME field, and that
 * look-up skips the D2, D4 and A1 pulses and reads C1 where C4 belongs.
 * `Altitude` decodes the code it was given with the full Gillham look-up
 * (`Gray.GillhamValue`).  The aircraft state uses `AltitudeAsWritten`, the
 * decoder `update` calls.
 */
module BaroAltitude {
  import opened Wrappers
  import opened Bits
  import opened MaCode
  import opened MeCode
  import opened Gray

  /** Decoded values at or above this many feet are dropped. */
  const Ceiling: nat := 100000

  /**
   * The code `altitude` decodes: the ME code for DF 17, the Mode A/C code for
   * every other format.  DF 18 takes the Mode A/C arm too, so its code is read
   * from header bits 20-32, which in DF 18 hold part of the address; both
   * `AltitudeAsWritten` and `Altitude` keep this.
   */
  function AltitudeCode(m: seq<Nibble>, df: nat): (code: Option<nat>)
    requires |m| >= 8 && (df == 17 ==> |m| >= 13)
    ensures code.Some? && code.value < 0x4000
  {
    Pow2Table();
    if df == 17 then
      MeCodeFits14(m);
      MeCode.MeCode(m)
    else
      MaCodeOf(m)
  }

  /** Which bits the code holds: bits 41-52 with bit 48 below them in DF 17, the fourteen Mode A/C flags otherwise. */
  lemma AltitudeCodeReads(m: seq<Nibble>, df: nat)
    requires |m| >= 8 && (df == 17 ==> |m| >= 13)
    ensures df == 17 ==> AltitudeCode(m, df).value == Field(m, 41, 52) * 4 + MsgBit(m, 48)
    ensures df != 17 ==> AltitudeCode(m, df).value == MaValue(m)
  {
  }

  /**
   * N, the 25-ft count: `((code >> 7) << 4) | ((code >> 2) & 0xF)`, the code
   * without its bits 0, 1 and 6.  The shifted part stays below 2^11, so the
   * `u16` arithmetic does not overflow, and the two parts do not overlap.
   */
  function QCount(code: nat): (n: nat)
    requires code < 0x4000
    ensures n < 2048
  {
    (code / 128) * 16 + (code / 4) % 16
  }

  /**
   * `N * 25 - 1000` in `u32` arithmetic.  For N below 40 the subtraction wraps
   * round 2^32 (a release build; a debug build stops on the overflow).
   */
  function QFeet(n: nat): (ft: nat)
    requires n < 2048
    ensures n >= 40 ==> ft == n * 25 - 1000 && ft % 25 == 0 && ft <= 50175
    ensures n < 40 ==> ft >= U32 - 1000
  {
    (n * 25 + U32 - 1000) % U32
  }

  /** The metric count: the same bits as N, the shifted part masked with `0b11111110000`. */
  function MetricCount(code: nat): nat
  {
    ((code / 128) * 16) % 2048 + (code / 4) % 16
  }

  /**
   * `(count as f32 * 0.31) as u32`.  For every count below 2^11 the `f32`
   * product truncates to the same integer as the exact product count * 31/100,
   * so the integer form is used.
   */
  function MetricFeet(count: nat): (ft: nat)
  {
    count * 31 / 100
  }

  /** The Gray branch: `high * 500 + low * 100`, kept from 1200 ft up and lowered by 1200. */
  function GrayFeet(hl: (nat, nat)): Option<nat>
  {
    var value := hl.0 * 500 + hl.1 * 100;
    if value >= 1200 then Some(value - 1200) else None
  }

  /** The branch the two low bits of the code select, with the Gray pair it is given. */
  function FromCode(code: nat, gray: (nat, nat)): Option<nat>
    requires code < 0x4000
  {
    if code / 2 % 2 == 0 then
      if code % 2 == 0 then GrayFeet(gray) else Some(QFeet(QCount(code)))
    else
      Some(MetricFeet(MetricCount(code)))
  }

  /** `altitude_value`: `None` without a code; the Gray branch reads `graytobin(message)`. */
  function AltitudeValue(m: seq<Nibble>, code: Option<nat>): Option<nat>
    requires |m| >= 8
    requires code.Some? ==> code.value < 0x4000
  {
    match code
    case None => None
    case Some(c) => FromCode(c, GrayOfMessage(m))
  }

  /** The `and_then` of `altitude`: keeps a value below the ceiling. */
  function BelowCeiling(v: Option<nat>): (r: Option<nat>)
    ensures r.Some? <==> v.Some? && v.value < Ceiling
    ensures r.Some? ==> r == v
  {
    if v.Some? && v.value < Ceiling then v else None
  }

  /** `altitude(message, df)` as the source has it. */
  function AltitudeAsWritten(m: seq<Nibble>, df: nat): (r: Option<nat>)
    requires |m| >= 8 && (df == 17 ==> |m| >= 13)
    ensures r.Some? ==> r.value < Ceiling
  {
    BelowCeiling(AltitudeValue(m, AltitudeCode(m, df)))
  }

  /** `altitude` with the Gray branch decoding the code that was read for the format. */
  function Altitude(m: seq<Nibble>, df: nat): (r: Option<nat>)
    requires |m| >= 8 && (df == 17 ==> |m| >= 13)
    ensures r.Some? ==> r.value < Ceiling
  {
    var c := AltitudeCode(m, df).value;
    BelowCeiling(FromCode(c, GillhamValue(c)))
  }

  /** The branch bits of a DF 17 code: Q is message bit 48, and bit 1 is always clear. */
  lemma Df17BranchBits(m: seq<Nibble>)
    requires |m| >= 13
    ensures AltitudeCode(m, 17).value % 2 == MsgBit(m, 48)
    ensures AltitudeCode(m, 17).value / 2 % 2 == 0
  {
    MeCodeBranchBits(m);
  }

  /** The branch bits of a reply's code: Q is message bit 28 and M is message bit 26. */
  lemma ReplyBranchBits(m: seq<Nibble>, df: nat)
    requires |m| >= 8 && df != 17
    ensures AltitudeCode(m, df).value % 2 == MsgBit(m, 28)
    ensures AltitudeCode(m, df).value / 2 % 2 == MsgBit(m, 26)
  {
    var f := MaFlags(m);
    assert AltitudeCode(m, df).value == FromBits(f);
    MaFlagsAreBits(m, 12);
    MaFlagsAreBits(m, 13);
    FromBitsBit(f, 13);
    FromBitsBit(f, 12);
    Pow2Small();
  }

  /**
   * The Gray branch keeps values from 1200 ft up and returns a multiple of 100;
   * with the source's 5-bit band it is at most 14700 ft, below the ceiling.
   */
  lemma GrayFeetRange(hl: (nat, nat))
    requires hl.0 < 256 && hl.1 <= 4
    ensures GrayFeet(hl).Some? <==> hl.0 * 500 + hl.1 * 100 >= 1200
    ensures GrayFeet(hl).Some? ==>
      GrayFeet(hl).value + 1200 == hl.0 * 500 + hl.1 * 100 && GrayFeet(hl).value % 100 == 0
    ensures GrayFeet(hl).Some? && hl.0 <= 31 ==> GrayFeet(hl).value <= 14700
  {
    assert hl.0 <= 31 ==> hl.0 * 500 <= 15500;
  }

  /**
   * The Gray branch (bits 0 and 1 clear): the value from `graytobin`, `None`
   * below 1200 ft, otherwise lowered by 1200 ft to a multiple of 100 of at most
   * 14700 ft, so the ceiling never applies.
   */
  lemma AltitudeGrayBranch(m: seq<Nibble>, df: nat)
    requires |m| >= 8 && (df == 17 ==> |m| >= 13)
    requires AltitudeCode(m, df).value % 2 == 0 && AltitudeCode(m, df).value / 2 % 2 == 0
    ensures AltitudeAsWritten(m, df) == GrayFeet(GrayOfMessage(m))
    ensures AltitudeAsWritten(m, df).Some? ==>
      AltitudeAsWritten(m, df).value % 100 == 0 && AltitudeAsWritten(m, df).value <= 14700
  {
    GrayFeetRange(GrayOfMessage(m));
  }

  /**
   * The corrected Gray branch: the Gillham band and step of the code itself,
   * `None` below 1200 ft of value or from the ceiling up, otherwise a multiple
   * of 100 ft.
   */
  lemma AltitudeGillhamBranch(m: seq<Nibble>, df: nat)
    requires |m| >= 8 && (df == 17 ==> |m| >= 13)
    requires AltitudeCode(m, df).value % 2 == 0 && AltitudeCode(m, df).value / 2 % 2 == 0
    ensures var hl := GillhamValue(AltitudeCode(m, df).value);
      Altitude(m, df) == BelowCeiling(GrayFeet(hl)) &&
      (Altitude(m, df).Some? ==> Altitude(m, df).value + 1200 == hl.0 * 500 + hl.1 * 100)
    ensures Altitude(m, df).Some? ==> Altitude(m, df).value % 100 == 0
  {
    var c := AltitudeCode(m, df).value;
    GrayBranch(c, GillhamValue(c));
    GrayFeetRange(GillhamValue(c));
  }

  /** The Q branch of a code: N * 25 - 1000 ft from N = 40 up, `None` below, as the wrapped value is above the ceiling. */
  lemma QBranch(c: nat, gray: (nat, nat))
    requires c < 0x4000 && c % 2 == 1 && c / 2 % 2 == 0
    ensures QCount(c) >= 40 ==> BelowCeiling(FromCode(c, gray)) == Some(QCount(c) * 25 - 1000)
    ensures QCount(c) < 40 ==> BelowCeiling(FromCode(c, gray)) == None
  {
  }

  /**
   * The Q branch (bit 0 set, bit 1 clear) of `altitude`: N * 25 - 1000 ft from
   * N = 40 up; below that the wrapped `u32` value is above the ceiling and the
   * result is `None`.  The branch does not read `graytobin`, so both
   * definitions agree.
   */
  lemma AltitudeQBranch(m: seq<Nibble>, df: nat)
    requires |m| >= 8 && (df == 17 ==> |m| >= 13)
    requires AltitudeCode(m, df).value % 2 == 1 && AltitudeCode(m, df).value / 2 % 2 == 0
    ensures var n := QCount(AltitudeCode(m, df).value);
      (n >= 40 ==> AltitudeAsWritten(m, df) == Some(n * 25 - 1000)) &&
      (n < 40 ==> AltitudeAsWritten(m, df) == None)
    ensures AltitudeAsWritten(m, df) == Altitude(m, df)
  {
    var c := AltitudeCode(m, df).value;
    QBranch(c, GrayOfMessage(m));
    QBranch(c, GillhamValue(c));
  }

  /** The metric count reads the same bits as N. */
  lemma MetricCountIsQCount(c: nat)
    requires c < 0x4000
    ensures MetricCount(c) == QCount(c)
  {
    assert c / 128 < 128;
    assert (c / 128) * 16 < 2048;
  }

  /** The metric branch (bit 1 set): only a reply takes it, and it gives N * 31 / 100, at most 634. */
  lemma AltitudeMetricBranch(m: seq<Nibble>, df: nat)
    requires |m| >= 8 && (df == 17 ==> |m| >= 13)
    requires AltitudeCode(m, df).value / 2 % 2 == 1
    ensures df != 17
    ensures AltitudeAsWritten(m, df) == Some(QCount(AltitudeCode(m, df).value) * 31 / 100)
    ensures AltitudeAsWritten(m, df).value <= 634
    ensures AltitudeAsWritten(m, df) == Altitude(m, df)
  {
    if df == 17 {
      Df17BranchBits(m);
      assert false;
    }
    MetricCountIsQCount(AltitudeCode(m, df).value);
  }

  /** N of a code with the DF 17 layout and the Q bit set. */
  lemma QCountOfParts(hi: nat, lo: nat)
    requires hi < 128 && lo < 16
    ensures hi * 128 + 64 + lo * 4 + 1 < 0x4000
    ensures QCount(hi * 128 + 64 + lo * 4 + 1) == hi * 16 + lo
  {
    var c := hi * 128 + 64 + lo * 4 + 1;
    DivUnique(c, 128, hi, 64 + lo * 4 + 1);
    DivUnique(c, 4, hi * 32 + 16 + lo, 1);
    DivUnique(hi * 32 + 16 + lo, 16, hi * 2 + 1, lo);
  }

  lemma CodeOfParts(f: nat, hi: nat, lo: nat, c: nat)
    requires f == hi * 32 + 16 + lo && c == f * 4 + 1
    ensures c == hi * 128 + 64 + lo * 4 + 1
  {
  }

  /** Bits 41-52 around a set bit 48. */
  lemma MeFieldParts(m: seq<Nibble>)
    requires |m| >= 13 && MsgBit(m, 48) == 1
    ensures Field(m, 41, 52) == Field(m, 41, 47) * 32 + 16 + Field(m, 49, 52)
    ensures Field(m, 41, 47) < 128 && Field(m, 49, 52) < 16
  {
    FieldSplit(m, 41, 47, 52);
    FieldSplit(m, 48, 48, 52);
    assert Field(m, 48, 48) == 1 by {
      assert Field(m, 48, 47) == 0;
    }
    Pow2Table();
    FieldBound(m, 49, 52);
    FieldBound(m, 41, 47);
  }

  /**
   * In DF 17 the Q branch reads the eleven altitude bits 41-47 and 49-52 of
   * the ME field, bit 48 (Q) left out: N = bits 41-47 * 16 + bits 49-52.
   */
  lemma AltitudeQReadsMeField(m: seq<Nibble>)
    requires |m| >= 13 && MsgBit(m, 48) == 1
    ensures QCount(AltitudeCode(m, 17).value) == Field(m, 41, 47) * 16 + Field(m, 49, 52)
  {
    MeQCount(m);
  }

  /** N of the ME code with the Q bit set. */
  lemma MeQCount(m: seq<Nibble>)
    requires |m| >= 13 && MsgBit(m, 48) == 1
    ensures MeCode.MeCode(m).value < 0x4000
    ensures QCount(MeCode.MeCode(m).value) == Field(m, 41, 47) * 16 + Field(m, 49, 52)
  {
    var hi, lo := Field(m, 41, 47), Field(m, 49, 52);
    MeFieldParts(m);
    CodeOfParts(Field(m, 41, 52), hi, lo, MeCode.MeCode(m).value);
    QCountOfParts(hi, lo);
  }

  /** The Gray branch of a code whose two low bits are clear. */
  lemma GrayBranch(c: nat, gray: (nat, nat))
    requires c < 0x4000 && c % 2 == 0 && c / 2 % 2 == 0
    ensures FromCode(c, gray) == GrayFeet(gray)
  {
  }

  /** A8281200200464B3CF7820CD194C: DF 21, code 9216, band 31 and step 0 in both look-ups, 14300 ft. */
  lemma AltitudeVector1(m: seq<Nibble>)
    requires |m| >= 8 && m[0] == 10 && m[1] == 8
    requires m[4] == 1 && m[5] == 2 && m[6] == 0 && m[7] == 0
    ensures AltitudeAsWritten(m, 21) == Some(14300)
    ensures Altitude(m, 21) == Some(14300)
  {
    CodeVector1(m);
    GrayVector1(m);
    GrayCodeFeet(m, 21, (31, 0));
    GillhamCodeFeet(m, 21, (31, 0));
  }

  /**
   * A020100A10020A80F000004F24AF: DF 20, code 8232.  As written the look-up
   * gives band 2, step 0: 1000 ft of value, so `None`.  With C4 read the step
   * is 4 and the altitude 200 ft.
   */
  lemma AltitudeVector2(m: seq<Nibble>)
    requires |m| >= 8 && m[0] == 10 && m[1] == 0
    requires m[4] == 1 && m[5] == 0 && m[6] == 0 && m[7] == 10
    ensures AltitudeAsWritten(m, 20) == None
    ensures Altitude(m, 20) == Some(200)
  {
    CodeVector2(m);
    GrayVector2(m);
    GrayCodeFeet(m, 20, (2, 0));
    GillhamCodeFeet(m, 20, (2, 4));
  }

  /** Vector 1's code: the Gray branch, with the Gillham pair (31, 0). */
  lemma CodeVector1(m: seq<Nibble>)
    requires |m| >= 8 && m[4] == 1 && m[5] == 2 && m[6] == 0 && m[7] == 0
    ensures AltitudeCode(m, 21).value % 2 == 0 && AltitudeCode(m, 21).value / 2 % 2 == 0
    ensures GillhamValue(AltitudeCode(m, 21).value) == (31, 0)
  {
    CodeValue1(m);
    GillhamVector1();
    GrayCode(AltitudeCode(m, 21).value, 9216, (31, 0));
  }

  /** Vector 2's code: the Gray branch, with the Gillham pair (2, 4). */
  lemma CodeVector2(m: seq<Nibble>)
    requires |m| >= 8 && m[4] == 1 && m[5] == 0 && m[6] == 0 && m[7] == 10
    ensures AltitudeCode(m, 20).value % 2 == 0 && AltitudeCode(m, 20).value / 2 % 2 == 0
    ensures GillhamValue(AltitudeCode(m, 20).value) == (2, 4)
  {
    CodeValue2(m);
    GillhamVector2();
    GrayCode(AltitudeCode(m, 20).value, 8232, (2, 4));
  }

  lemma CodeValue1(m: seq<Nibble>)
    requires |m| >= 8 && m[4] == 1 && m[5] == 2 && m[6] == 0 && m[7] == 0
    ensures AltitudeCode(m, 21).value == 9216
  {
    AltitudeCodeReads(m, 21);
    MaValueVector1(m);
  }

  lemma CodeValue2(m: seq<Nibble>)
    requires |m| >= 8 && m[4] == 1 && m[5] == 0 && m[6] == 0 && m[7] == 10
    ensures AltitudeCode(m, 20).value == 8232
  {
    AltitudeCodeReads(m, 20);
    MaValueVector2(m);
  }

  /** A code equal to a known code with both branch bits clear and a known pair. */
  lemma GrayCode(c: nat, known: nat, hl: (nat, nat))
    requires c == known && known % 4 == 0 && GillhamValue(known) == hl
    ensures c % 2 == 0 && c / 2 % 2 == 0 && GillhamValue(c) == hl
  {
    LowTwoBits(c / 4, 0, c);
  }

  /** The altitude as written from a code in the Gray branch and a known pair from `graytobin(message)`. */
  lemma GrayCodeFeet(m: seq<Nibble>, df: nat, hl: (nat, nat))
    requires |m| >= 8 && (df == 17 ==> |m| >= 13)
    requires AltitudeCode(m, df).value % 2 == 0 && AltitudeCode(m, df).value / 2 % 2 == 0
    requires GrayOfMessage(m) == hl && hl.0 <= 31 && hl.1 <= 4
    ensures AltitudeAsWritten(m, df) == GrayFeet(hl)
  {
    GrayBranch(AltitudeCode(m, df).value, hl);
    GrayFeetRange(hl);
  }

  /** The corrected altitude from a code in the Gray branch and its known Gillham pair. */
  lemma GillhamCodeFeet(m: seq<Nibble>, df: nat, hl: (nat, nat))
    requires |m| >= 8 && (df == 17 ==> |m| >= 13)
    requires AltitudeCode(m, df).value % 2 == 0 && AltitudeCode(m, df).value / 2 % 2 == 0
    requires GillhamValue(AltitudeCode(m, df).value) == hl && hl.0 <= 31 && hl.1 <= 4
    ensures Altitude(m, df) == GrayFeet(hl)
  {
    GrayBranch(AltitudeCode(m, df).value, hl);
    GrayFeetRange(hl);
  }

  /**
   * As written, a DF 17 altitude in the Gray branch depends on message bits
   * 20-32, which in DF 17 hold the aircraft address: two squitters with the
   * same ME altitude field (nibbles 10-12, Q bit clear) and different
   * addresses decode to 14300 ft and to `None`.
   */
  lemma GrayDf17ReadsAddress(m: seq<Nibble>, m': seq<Nibble>)
    requires |m| >= 13 && |m'| >= 13
    requires m[4] == 1 && m[5] == 2 && m[6] == 0 && m[7] == 0
    requires m'[4] == 1 && m'[5] == 0 && m'[6] == 0 && m'[7] == 10
    requires m[10] == m'[10] && m[11] == m'[11] && m[12] == m'[12] && m[11] % 2 == 0
    ensures AltitudeCode(m, 17).value == AltitudeCode(m', 17).value
    ensures AltitudeAsWritten(m, 17) == Some(14300)
    ensures AltitudeAsWritten(m', 17) == None
  {
    SameMeCode(m, m');
    Df17BranchBits(m);
    Df17BranchBits(m');
    Q48Clear(m);
    Q48Clear(m');
    GrayVector1(m);
    GrayVector2(m');
    GrayCodeFeet(m, 17, (31, 0));
    GrayCodeFeet(m', 17, (2, 0));
  }

  /** Bit 48 is the low bit of nibble 11. */
  lemma Q48Clear(m: seq<Nibble>)
    requires |m| >= 13 && m[11] % 2 == 0
    ensures MsgBit(m, 48) == 0
  {
  }

  /** Squitters that agree on nibbles 10-12 have the same DF 17 code. */
  lemma SameMeCode(m: seq<Nibble>, m': seq<Nibble>)
    requires |m| >= 13 && |m'| >= 13
    requires m[10] == m'[10] && m[11] == m'[11] && m[12] == m'[12]
    ensures AltitudeCode(m, 17).value == AltitudeCode(m', 17).value
  {
    MeCodeSame(m, m');
  }

  /** `Altitude` of a DF 17 squitter depends on the ME altitude field alone (nibbles 10-12). */
  lemma AltitudeReadsMeField(m: seq<Nibble>, m': seq<Nibble>)
    requires |m| >= 13 && |m'| >= 13
    requires m[10] == m'[10] && m[11] == m'[11] && m[12] == m'[12]
    ensures Altitude(m, 17) == Altitude(m', 17)
  {
    SameMeCode(m, m');
  }
}
