/**
 * The Mode A/C code of a reply (src/adsb/ma_code.rs): fourteen single bits of
 * nibbles 4-7 (Annex 10 bits 20-32, bit 28 twice) packed into a 14-bit number,
 * the first flag in bit 13.
 */
module MaCode {
  import opened Wrappers
  import opened Bits

  /** The message bit each flag copies, in flag order. */
  const MaPositions: seq<nat> := [20, 21, 22, 23, 24, 25, 27, 28, 29, 30, 31, 32, 26, 28]

  /** The `flags` array: `(message[k] >> s) & 1` for the listed nibbles and shifts. */
  function MaFlags(m: seq<Nibble>): (flags: seq<Bit>)
    requires |m| >= 8
    ensures |flags| == 14
  {
    [m[4] % 2, m[5] / 8 % 2, m[5] / 4 % 2, m[5] / 2 % 2, m[5] % 2, m[6] / 8 % 2, m[6] / 2 % 2,
     m[6] % 2, m[7] / 8 % 2, m[7] / 4 % 2, m[7] / 2 % 2, m[7] % 2, m[6] / 4 % 2, m[6] % 2]
  }

  /** Flag i is message bit MaPositions[i]. */
  lemma MaFlagsAreBits(m: seq<Nibble>, i: nat)
    requires |m| >= 8 && i < 14
    ensures MaPositions[i] <= 4 * |m| && MaFlags(m)[i] == MsgBit(m, MaPositions[i])
  {
  }

  /** The code the loop assembles: flag i in bit 13 - i. */
  function MaValue(m: seq<Nibble>): (code: nat)
    requires |m| >= 8
    ensures code < Pow2(14)
  {
    FromBitsBound(MaFlags(m));
    FromBits(MaFlags(m))
  }

  /** What `ma_code` returns: always a code. */
  function MaCodeOf(m: seq<Nibble>): Option<nat>
    requires |m| >= 8
  {
    Some(MaValue(m))
  }

  /**
   * `ma_code`: OR each flag into `result` at bit 13 - i.  The bits below
   * 14 - i are still clear when flag i arrives, so the OR is an addition.
   */
  method MaCode(m: seq<Nibble>) returns (r: Option<nat>)
    requires |m| >= 8
    ensures r == MaCodeOf(m)
  {
    var flags := MaFlags(m);
    var result := 0;
    for i := 0 to 14
      invariant result == FromBits(flags[..i]) * Pow2(14 - i)
    {
      FromBitsStep(flags, i, 14);
      result := result + flags[i] * Pow2(13 - i);
    }
    assert flags[..14] == flags;
    r := Some(result);
  }

  /** Bit 13 - i of the code is the message bit flag i copies. */
  lemma MaCodeBits(m: seq<Nibble>, i: nat)
    requires |m| >= 8 && i < 14
    ensures BitOf(MaValue(m), 13 - i) == MsgBit(m, MaPositions[i])
  {
    FromBitsBit(MaFlags(m), i);
    MaFlagsAreBits(m, i);
  }

  /** Flags 7 and 13 both copy `message[6] & 1`: bits 6 and 0 of the code hold message bit 28. */
  lemma MaCodeRepeatsBit28(m: seq<Nibble>)
    requires |m| >= 8
    ensures BitOf(MaValue(m), 6) == MsgBit(m, 28) && BitOf(MaValue(m), 0) == MsgBit(m, 28)
    ensures BitOf(MaValue(m), 6) == m[6] % 2
  {
    MaCodeBits(m, 7);
    MaCodeBits(m, 13);
  }

  /** The code as the weighted sum of its flags, flag i weighing 2^(13-i). */
  lemma MaValueWeighted(m: seq<Nibble>)
    requires |m| >= 8
    ensures var f := MaFlags(m);
      MaValue(m) == f[0] as int * 8192 + f[1] as int * 4096 + f[2] as int * 2048 + f[3] as int * 1024 + f[4] as int * 512 + f[5] as int * 256
                    + f[6] as int * 128 + f[7] as int * 64 + f[8] as int * 32 + f[9] as int * 16 + f[10] as int * 8 + f[11] as int * 4 + f[12] as int * 2 + f[13] as int
  {
    var f := MaFlags(m);
    FromBitsPrefix(f, 0);
    FromBitsPrefix(f, 1);
    FromBitsPrefix(f, 2);
    FromBitsPrefix(f, 3);
    FromBitsPrefix(f, 4);
    FromBitsPrefix(f, 5);
    FromBitsPrefix(f, 6);
    FromBitsPrefix(f, 7);
    FromBitsPrefix(f, 8);
    FromBitsPrefix(f, 9);
    FromBitsPrefix(f, 10);
    FromBitsPrefix(f, 11);
    FromBitsPrefix(f, 12);
    FromBitsPrefix(f, 13);
    assert f[..0] == [];
    assert f[..14] == f;
  }

  /** "8D40621D...": nibbles 4-7 are 6, 2, 1, D and the code is 1141. */
  lemma MaCodeVector1(m: seq<Nibble>)
    requires |m| >= 8 && m[4] == 6 && m[5] == 2 && m[6] == 1 && m[7] == 13
    ensures MaValue(m) == 1141
  {
    MaValueWeighted(m);
  }

  /** "A0001838...": nibbles 4-7 are 1, 8, 3, 8 and the code is 12513. */
  lemma MaCodeVector2(m: seq<Nibble>)
    requires |m| >= 8 && m[4] == 1 && m[5] == 8 && m[6] == 3 && m[7] == 8
    ensures MaValue(m) == 12513
  {
    MaValueWeighted(m);
  }

  /** A8281200200464B3CF7820CD194C: nibbles 4-7 are 1, 2, 0, 0 and the code is 9216. */
  lemma MaValueVector1(m: seq<Nibble>)
    requires |m| >= 8 && m[4] == 1 && m[5] == 2 && m[6] == 0 && m[7] == 0
    ensures MaValue(m) == 9216
  {
    MaValueWeighted(m);
  }

  /** A020100A10020A80F000004F24AF: nibbles 4-7 are 1, 0, 0, A and the code is 8232. */
  lemma MaValueVector2(m: seq<Nibble>)
    requires |m| >= 8 && m[4] == 1 && m[5] == 0 && m[6] == 0 && m[7] == 10
    ensures MaValue(m) == 8232
  {
    MaValueWeighted(m);
  }
}
