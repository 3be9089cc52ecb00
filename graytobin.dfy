/**
 * The Gray-coded (Gillham) altitude of a reply (src/adsb/altitude/graytobin.rs):
 * the pulses of the 13-bit altitude code are rearranged into an 11-bit number
 * n, the 500-ft part is Gray-decoded by a running XOR from bit 7 down, and
 * the 100-ft part is read from n's low three bits through two tables chosen
 * by the parity of the 500-ft count.
 */
module Gray {
  import opened Wrappers
  import opened Bits
  import opened MaCode

  /**
   * `n`: code bits 4, 2, 12, 10, 8, 7, 5, 3, 13, 11, 13 (D2 D4 A1 A2 A4 B1
   * B2 B4 C1 C2 C1 of the Mode A/C layout) as bits 10 down to 0.
   */
  function GrayInput(code: nat): (n: nat)
    ensures n < 2048
  {
    BitOf(code, 4) * 1024 + BitOf(code, 2) * 512 + BitOf(code, 12) * 256 + BitOf(code, 10) * 128
    + BitOf(code, 8) * 64 + BitOf(code, 7) * 32 + BitOf(code, 5) * 16 + BitOf(code, 3) * 8
    + BitOf(code, 13) * 4 + BitOf(code, 11) * 2 + BitOf(code, 13)
  }

  /** The XOR of bits 7 down to k of n: the Gray-to-binary rule for bit k. */
  function PrefixXor(n: nat, k: nat): (b: Bit)
    requires k <= 7
    decreases 7 - k
  {
    if k == 7 then BitOf(n, 7) else XorBit(PrefixXor(n, k + 1), BitOf(n, k))
  }

  /** The XOR of two bits. */
  function XorBit(a: Bit, b: Bit): Bit
  {
    (a + b) % 2
  }

  /** The eight decoded bits, most significant (bit 7) first. */
  function GrayBits(n: nat): (s: seq<Bit>)
    ensures |s| == 8
  {
    [PrefixXor(n, 7), PrefixXor(n, 6), PrefixXor(n, 5), PrefixXor(n, 4),
     PrefixXor(n, 3), PrefixXor(n, 2), PrefixXor(n, 1), PrefixXor(n, 0)]
  }

  /** Decoded bit i (counting from the top) is the running XOR down to bit 7-i. */
  lemma GrayBitsAt(n: nat, i: nat)
    requires i < 8
    ensures GrayBits(n)[i] == PrefixXor(n, 7 - i)
  {
  }

  /** The low byte of n read as a Gray code. */
  function GrayDecode(n: nat): (b: nat)
    ensures b < 256
  {
    FromBitsBound(GrayBits(n));
    Pow2Eight();
    FromBits(GrayBits(n))
  }

  /** `low`: the 100-ft step from `sub`, through the table the parity of `high` selects. */
  function LowOf(high: nat, sub: nat): (low: nat)
    ensures low <= 4
  {
    if high % 2 == 0 then
      (if sub == 4 then 4 else if sub == 6 then 3 else if sub == 3 then 1 else if sub == 2 then 2 else 0)
    else
      (if sub == 1 then 4 else if sub == 3 then 3 else if sub == 6 then 1 else if sub == 2 then 2 else 0)
  }

  /** What `graytobin` returns for a code: the 500-ft count `result >> 3` and the 100-ft step. */
  function GrayValue(code: nat): (hl: (nat, nat))
    ensures hl.0 <= 31 && hl.1 <= 4
  {
    var n := GrayInput(code);
    var high := GrayDecode(n) / 8;
    (high, LowOf(high, n % 8))
  }

  /** `graytobin` on the result of `ma_code`: `(0, 0)` when there is no code. */
  function GrayOfCode(code: Option<nat>): (hl: (nat, nat))
  {
    match code
    case Some(c) => GrayValue(c)
    case None => (0, 0)
  }

  /** `graytobin(message)`: the look-up on the message's Mode A/C code. */
  function GrayOfMessage(m: seq<Nibble>): (hl: (nat, nat))
    requires |m| >= 8
  {
    GrayOfCode(MaCodeOf(m))
  }

  /** `n & mask != 0` for a mask that is a power of two or zero. */
  predicate HasBit(n: nat, mask: nat)
  {
    mask != 0 && n / mask % 2 == 1
  }

  /** `result | mask` for a mask that is a power of two or zero. */
  function SetBit(result: nat, mask: nat): nat
  {
    if mask == 0 || HasBit(result, mask) then result else result + mask
  }

  /**
   * The loop of `graytobin` and its table look-up: 16 passes with `mask`
   * going 0x80, 0x40, ..., 1, 0, ...; `cp` flips at every set bit of n and
   * while it is set the mask's bit goes into `result`.
   */
  method GrayToBin(code: nat) returns (high: nat, low: nat)
    ensures (high, low) == GrayValue(code)
  {
    var n := GrayInput(code);
    var mask := 0x80;
    var cp := false;
    var result := 0;
    for i := 0 to 16
      invariant (mask, cp, result) == LoopState(n, i)
    {
      LoopStep(n, i);
      if HasBit(n, mask) {
        cp := !cp;
      }
      if cp {
        result := SetBit(result, mask);
      }
      mask := mask / 2;
    }
    LoopDone(n);
    var sub := n % 8;
    high := result / 8;
    low := LowOf(high, sub);
  }

  /** One pass of the loop on (mask, cp, result). */
  function Pass(n: nat, st: (nat, bool, nat)): (nat, bool, nat)
  {
    var cp := if HasBit(n, st.0) then !st.1 else st.1;
    var result := if cp then SetBit(st.2, st.0) else st.2;
    (st.0 / 2, cp, result)
  }

  /**
   * (mask, cp, result) before pass i: the mask is bit 7-i (0 once it has
   * shifted out), cp is the XOR of the bits already seen and result holds
   * the decoded bits 7 down to 8-i.
   */
  function LoopState(n: nat, i: nat): (st: (nat, bool, nat))
  {
    if i < 8 then (Pow2(7 - i), i > 0 && PrefixXor(n, 8 - i) == 1, Shifted(FromBits(GrayBits(n)[..i]), 8 - i))
    else (0, PrefixXor(n, 0) == 1, FromBits(GrayBits(n)))
  }

  /** `x << k` on a non-negative number. */
  function Shifted(x: nat, k: nat): nat
  {
    x * Pow2(k)
  }

  /** A pass takes the state before pass i to the state before pass i+1. */
  lemma LoopStep(n: nat, i: nat)
    ensures Pass(n, LoopState(n, i)) == LoopState(n, i + 1)
  {
    if i < 8 {
      LoopStepActive(n, i);
    } else {
      LoopStepIdle(n, i);
    }
  }

  /** Passes 0-7: the mask is bit 7-i of n. */
  lemma LoopStepActive(n: nat, i: nat)
    requires i < 8
    ensures Pass(n, LoopState(n, i)) == LoopState(n, i + 1)
  {
    var st := LoopState(n, i);
    var st' := LoopState(n, i + 1);
    var cp := if HasBit(n, st.0) then !st.1 else st.1;
    assert st.0 == Pow2(7 - i);
    assert st.1 == (i > 0 && PrefixXor(n, 8 - i) == 1);
    assert st.2 == FromBits(GrayBits(n)[..i]) * Pow2(8 - i);
    MaskStep(i);
    CpStep(n, i, st.1, cp);
    ResultStep(n, i, st.2, cp);
    if i == 7 {
      assert GrayBits(n)[..8] == GrayBits(n);
      assert Pow2(0) == 1;
    }
    assert st'.0 == if i + 1 < 8 then Pow2(7 - (i + 1)) else 0;
    assert st'.1 == (PrefixXor(n, 7 - i) == 1);
    assert st'.2 == FromBits(GrayBits(n)[..i + 1]) * Pow2(8 - (i + 1));
  }

  /** Passes 8-15: the mask has shifted out and nothing changes. */
  lemma LoopStepIdle(n: nat, i: nat)
    requires i >= 8
    ensures Pass(n, LoopState(n, i)) == LoopState(n, i + 1)
  {
    var st := LoopState(n, i);
    assert st.0 == 0;
    assert !HasBit(n, 0);
    assert SetBit(st.2, 0) == st.2;
  }

  lemma MaskStep(i: nat)
    requires i < 8
    ensures Pow2(7 - i) / 2 == if i + 1 < 8 then Pow2(7 - (i + 1)) else 0
  {
  }

  /** The flag after pass i is the XOR of bits 7 down to 7-i. */
  lemma CpStep(n: nat, i: nat, cp: bool, cp': bool)
    requires i < 8
    requires cp == (i > 0 && PrefixXor(n, 8 - i) == 1)
    requires cp' == if HasBit(n, Pow2(7 - i)) then !cp else cp
    ensures cp' == (PrefixXor(n, 7 - i) == 1)
  {
  }

  /** The result after pass i holds the decoded bits 7 down to 7-i. */
  lemma ResultStep(n: nat, i: nat, result: nat, cp: bool)
    requires i < 8
    requires result == FromBits(GrayBits(n)[..i]) * Pow2(8 - i)
    requires cp == (PrefixXor(n, 7 - i) == 1)
    ensures (if cp then SetBit(result, Pow2(7 - i)) else result)
            == FromBits(GrayBits(n)[..i + 1]) * Pow2(8 - (i + 1))
  {
    var bits := GrayBits(n);
    GrayPass(i, result, bits);
    GrayBitsAt(n, i);
  }

  /** After the passes, result is the decoded byte. */
  lemma LoopDone(n: nat)
    ensures LoopState(n, 16).2 == GrayDecode(n)
  {
  }

  /** One pass at mask 2^(7-i): the test reads bit 7-i of n and the OR adds a clear bit. */
  lemma GrayPass(i: nat, result: nat, bits: seq<Bit>)
    requires i < 8 && |bits| == 8
    requires result == FromBits(bits[..i]) * Pow2(8 - i)
    ensures !HasBit(result, Pow2(7 - i))
    ensures FromBits(bits[..i + 1]) * Pow2(7 - i)
            == result + (if bits[i] == 1 then Pow2(7 - i) else 0)
  {
    var p := Pow2(7 - i);
    var a := FromBits(bits[..i]);
    assert Pow2(8 - i) == 2 * p;
    assert result == a * (2 * p);
    EvenMultipleClear(a, p, result);
    FromBitsStep(bits, i, 8);
    assert bits[i] * p == if bits[i] == 1 then p else 0;
  }

  /** A multiple of 2p has bit p clear. */
  lemma EvenMultipleClear(a: nat, p: nat, x: nat)
    requires p >= 1 && x == a * (2 * p)
    ensures x / p % 2 == 0
  {
    assert x == (2 * a) * p;
    DivUnique(x, p, 2 * a, 0);
  }

  lemma Pow2Half(k: nat)
    ensures Pow2(k + 1) / 2 == Pow2(k)
  {
  }

  lemma Pow2Eight()
    ensures Pow2(8) == 256
  {
    Pow2Word();
  }

  /** Bit k of the decoded byte is the XOR of bits 7 down to k of n. */
  lemma GrayDecodeBits(n: nat, k: nat)
    requires k <= 7
    ensures BitOf(GrayDecode(n), k) == PrefixXor(n, k)
  {
    FromBitsBit(GrayBits(n), 7 - k);
    GrayBitsAt(n, 7 - k);
  }

  /** Binary to Gray on a bit sequence: each bit XOR the bit before it (the one above). */
  function GrayEncodeBits(s: seq<Bit>): (t: seq<Bit>)
    ensures |t| == |s|
  {
    seq(|s|, i requires 0 <= i < |s| => if i == 0 then s[0] else XorBit(s[i - 1], s[i]))
  }

  /** Binary to Gray on a byte. */
  function GrayEncode(b: nat): (g: nat)
    requires b < 256
  {
    FromBits(GrayEncodeBits(BitsOf(b, 8)))
  }

  /** Gray-decoding the Gray code of a byte gives the byte back. */
  lemma GrayRoundTrip(b: nat)
    requires b < 256
    ensures GrayDecode(GrayEncode(b)) == b
  {
    var s := BitsOf(b, 8);
    var g := GrayEncode(b);
    forall i | 0 <= i < 8
      ensures GrayBits(g)[i] == s[i]
    {
      GrayPrefix(b, i);
      GrayBitsAt(g, i);
    }
    assert GrayBits(g) == s;
    Pow2Eight();
    FromBitsOfBits(b, 8);
  }

  /** The running XOR over the Gray code of b, after bits 7 down to 7-i, is bit 7-i of b. */
  lemma {:induction false} GrayPrefix(b: nat, i: nat)
    requires b < 256 && i < 8
    ensures PrefixXor(GrayEncode(b), 7 - i) == BitsOf(b, 8)[i]
  {
    var s := BitsOf(b, 8);
    var t := GrayEncodeBits(s);
    var g := FromBits(t);
    assert g == GrayEncode(b);
    FromBitsBit(t, i);
    assert BitOf(g, 7 - i) == t[i];
    if i > 0 {
      GrayPrefix(b, i - 1);
      assert PrefixXor(g, 7 - i) == XorBit(PrefixXor(g, 8 - i), BitOf(g, 7 - i));
      XorBitTwice(s[i - 1], s[i]);
    }
  }

  lemma XorBitTwice(a: Bit, b: Bit)
    ensures XorBit(a, XorBit(a, b)) == b
  {
  }

  /**
   * The mask starts at 0x80, so bits 8-10 of n (the D2, D4 and A1 pulses)
   * never reach the result: it depends on the low byte of n alone.
   */
  lemma GrayIgnoresHighBits(hi: nat, lo: nat)
    requires lo < 256
    ensures GrayDecode(hi * 256 + lo) == GrayDecode(lo)
  {
    var n := hi * 256 + lo;
    forall k | k <= 7
      ensures BitOf(n, k) == BitOf(lo, k)
    {
      BitBelowByte(hi, lo, k);
    }
    forall i | 0 <= i < 8
      ensures GrayBits(n)[i] == GrayBits(lo)[i]
    {
      PrefixXorSame(n, lo, 7 - i);
      GrayBitsAt(n, i);
      GrayBitsAt(lo, i);
    }
    assert GrayBits(n) == GrayBits(lo);
  }

  /** Two numbers that agree on bits k..7 agree on the running XOR from bit 7 to k. */
  lemma {:induction false} PrefixXorSame(n: nat, n': nat, k: nat)
    requires k <= 7
    requires forall t :: k <= t <= 7 ==> BitOf(n, t) == BitOf(n', t)
    ensures PrefixXor(n, k) == PrefixXor(n', k)
    decreases 7 - k
  {
    if k < 7 {
      PrefixXorSame(n, n', k + 1);
    }
  }

  /** Adding a multiple of 256 leaves bits 0-7 alone. */
  lemma BitBelowByte(hi: nat, lo: nat, k: nat)
    requires lo < 256 && k <= 7
    ensures BitOf(hi * 256 + lo, k) == BitOf(lo, k)
  {
    Pow2Eight();
    BitOfLow(hi, lo, 8, k);
  }

  /** Adding a multiple of 2^w leaves bits 0..w-1 alone. */
  lemma {:induction false} BitOfLow(hi: nat, lo: nat, w: nat, k: nat)
    requires lo < Pow2(w) && k < w
    ensures BitOf(hi * Pow2(w) + lo, k) == BitOf(lo, k)
    decreases k
  {
    var x := hi * Pow2(w) + lo;
    var p := Pow2(w - 1);
    assert Pow2(w) == 2 * p;
    assert x == (hi * p + lo / 2) * 2 + lo % 2 by {
      assert hi * (2 * p) == (hi * p) * 2;
    }
    DivUnique(x, 2, hi * p + lo / 2, lo % 2);
    if k > 0 {
      DivTwice(x, k - 1);
      DivTwice(lo, k - 1);
      BitOfLow(hi, lo / 2, w - 1, k - 1);
    }
  }

  /**
   * n's low three bits are C1 C2 C1: bit 0 repeats code bit 13 where the
   * Gillham layout has C4, so `sub` is 0, 2, 5 or 7 and the step is 0 or 2.
   */
  lemma GrayLowAsWritten(code: nat)
    ensures GrayInput(code) % 8 == BitOf(code, 13) * 5 + BitOf(code, 11) * 2
    ensures GrayValue(code).1 == 0 || GrayValue(code).1 == 2
  {
    InputLowBits(BitOf(code, 4), BitOf(code, 2), BitOf(code, 12), BitOf(code, 10), BitOf(code, 8),
      BitOf(code, 7), BitOf(code, 5), BitOf(code, 3), BitOf(code, 13), BitOf(code, 11));
    var n := GrayInput(code);
    var high := GrayDecode(n) / 8;
    assert GrayValue(code).1 == LowOf(high, n % 8);
    LowOfRepeatedC1(high, BitOf(code, 13), BitOf(code, 11));
  }

  /** With C1 in both bit 2 and bit 0 of `sub`, the tables give 0 or 2. */
  lemma LowOfRepeatedC1(high: nat, c1: Bit, c2: Bit)
    ensures LowOf(high, c1 * 5 + c2 * 2) == 0 || LowOf(high, c1 * 5 + c2 * 2) == 2
  {
  }

  /** The low three bits of the packed input, for any values of the pulses. */
  lemma InputLowBits(d2: Bit, d4: Bit, a1: Bit, a2: Bit, a4: Bit, b1: Bit, b2: Bit, b4: Bit, c1: Bit, c2: Bit)
    ensures (d2 * 1024 + d4 * 512 + a1 * 256 + a2 * 128 + a4 * 64 + b1 * 32 + b2 * 16 + b4 * 8 + c1 * 4 + c2 * 2 + c1) % 8
            == c1 * 5 + c2 * 2
  {
    var hi := d2 * 128 + d4 * 64 + a1 * 32 + a2 * 16 + a4 * 8 + b1 * 4 + b2 * 2 + b4;
    DivUnique(hi * 8 + c1 * 5 + c2 * 2, 8, hi, c1 * 5 + c2 * 2);
  }

  /**
   * The Gillham layout of the packed input: as `GrayInput`, with C4 (code bit
   * 9) in bit 0 where the source repeats C1.
   */
  function GillhamInput(code: nat): (n: nat)
    ensures n < 2048
  {
    BitOf(code, 4) * 1024 + BitOf(code, 2) * 512 + BitOf(code, 12) * 256 + BitOf(code, 10) * 128
    + BitOf(code, 8) * 64 + BitOf(code, 7) * 32 + BitOf(code, 5) * 16 + BitOf(code, 3) * 8
    + BitOf(code, 13) * 4 + BitOf(code, 11) * 2 + BitOf(code, 9)
  }

  /**
   * The C1 C2 C4 pattern of 100-ft step `low` of a 500-ft band: the five-step
   * cycle the tables of `LowOf` read, run backwards in odd bands.
   */
  function CPattern(high: nat, low: nat): (sub: nat)
    requires low <= 4
    ensures sub < 8
  {
    if high % 2 == 0 then [1, 3, 2, 6, 4][low] else [4, 6, 2, 3, 1][low]
  }

  /** The decoder on all eight 500-ft pulses (bits 10-3 of the input) and the 100-ft tables. */
  function GillhamOfInput(n: nat): (hl: (nat, nat))
    ensures hl.0 < 256 && hl.1 <= 4
  {
    var high := GrayDecode(n / 8);
    (high, LowOf(high, n % 8))
  }

  /** The Gray look-up with D2, D4 and A1 decoded and C4 in place. */
  function GillhamValue(code: nat): (hl: (nat, nat))
    ensures hl.0 < 256 && hl.1 <= 4
  {
    GillhamOfInput(GillhamInput(code))
  }

  /** Every band h (sent as its Gray code) and step l decode back to (h, l). */
  lemma GillhamRoundTrip(h: nat, l: nat)
    requires h < 256 && l <= 4
    ensures GillhamOfInput(GrayEncode(h) * 8 + CPattern(h, l)) == (h, l)
  {
    GillhamOfParts(GrayEncode(h), CPattern(h, l));
    GrayRoundTrip(h);
    StepRoundTrip(h, l);
  }

  /** The input splits into the 500-ft pulses (bits 10-3) and the pattern (bits 2-0). */
  lemma GillhamOfParts(g: nat, sub: nat)
    requires sub < 8
    ensures GillhamOfInput(g * 8 + sub) == (GrayDecode(g), LowOf(GrayDecode(g), sub))
  {
    DivUnique(g * 8 + sub, 8, g, sub);
  }

  /** The tables read every step of the cycle back. */
  lemma StepRoundTrip(h: nat, l: nat)
    requires l <= 4
    ensures LowOf(h, CPattern(h, l)) == l
  {
  }

  /** Code 9216 (vector 1): the input is 132, the band 31 and the step 0, as the source gives. */
  lemma GillhamVector1()
    ensures GillhamValue(9216) == (31, 0)
  {
    GillhamInputVector1();
    GrayDecodeOfBits16(16);
    assert GillhamValue(9216) == GillhamOfInput(132);
  }

  lemma GillhamInputVector1()
    ensures GillhamInput(9216) == 132
  {
    Pow2Table();
  }

  lemma GrayDecodeOfBits16(n: nat)
    requires n == 16
    ensures GrayDecode(n) == 31
  {
    Pow2Table();
    var s: seq<Bit> := [0, 0, 0, 1, 1, 1, 1, 1];
    assert BitOf(n, 7) == 0 && BitOf(n, 6) == 0 && BitOf(n, 5) == 0 && BitOf(n, 4) == 1;
    assert BitOf(n, 3) == 0 && BitOf(n, 2) == 0 && BitOf(n, 1) == 0 && BitOf(n, 0) == 0;
    DecodeFromBits(n, s);
    FromBitsEight(s);
  }

  /**
   * Code 8232 (vector 2): C4 is clear, so the pattern is C1 alone (4), the
   * band is 2 and the step 4, where the source reads pattern 5 and step 0.
   */
  lemma GillhamVector2()
    ensures GillhamValue(8232) == (2, 4)
  {
    GillhamInputVector2();
    GrayDecodeOfBits3(3);
    assert GillhamValue(8232) == GillhamOfInput(28);
  }

  lemma GillhamInputVector2()
    ensures GillhamInput(8232) == 28
  {
    Pow2Table();
  }

  lemma GrayDecodeOfBits3(n: nat)
    requires n == 3
    ensures GrayDecode(n) == 2
  {
    Pow2Table();
    var s: seq<Bit> := [0, 0, 0, 0, 0, 0, 1, 0];
    assert BitOf(n, 7) == 0 && BitOf(n, 6) == 0 && BitOf(n, 5) == 0 && BitOf(n, 4) == 0;
    assert BitOf(n, 3) == 0 && BitOf(n, 2) == 0 && BitOf(n, 1) == 1 && BitOf(n, 0) == 1;
    DecodeFromBits(n, s);
    FromBitsEight(s);
  }

  /** `GrayValue` from a known decoded byte. */
  lemma ValueOfDecoded(code: nat, d: nat)
    requires GrayDecode(GrayInput(code)) == d
    ensures GrayValue(code) == (d / 8, LowOf(d / 8, GrayInput(code) % 8))
  {
  }

  /** A8281200200464B3CF7820CD194C: nibbles 4-7 are 1, 2, 0, 0, the code is 9216, n is 133 and the result is (31, 0). */
  lemma GrayVector1(m: seq<Nibble>)
    requires |m| >= 8 && m[4] == 1 && m[5] == 2 && m[6] == 0 && m[7] == 0
    ensures GrayOfMessage(m) == (31, 0)
  {
    MaValueVector1(m);
    GrayInputVector1();
    GrayDecodeVector1();
    assert GrayValue(9216) == (249 / 8, LowOf(249 / 8, 133 % 8));
  }

  lemma GrayInputVector1()
    ensures GrayInput(9216) == 133
  {
    Pow2Table();
  }

  /** The running XOR over the bits of 133, most significant first. */
  lemma GrayDecodeVector1()
    ensures GrayDecode(133) == 249
  {
    BitsVector1();
    GrayDecodeOfBits1(133);
  }

  lemma GrayDecodeOfBits1(n: nat)
    requires BitOf(n, 7) == 1 && BitOf(n, 6) == 0 && BitOf(n, 5) == 0 && BitOf(n, 4) == 0
    requires BitOf(n, 3) == 0 && BitOf(n, 2) == 1 && BitOf(n, 1) == 0 && BitOf(n, 0) == 1
    ensures GrayDecode(n) == 249
  {
    var s: seq<Bit> := [1, 1, 1, 1, 1, 0, 0, 1];
    assert PrefixXor(n, 7) == 1;
    assert PrefixXor(n, 6) == 1;
    assert PrefixXor(n, 5) == 1;
    assert PrefixXor(n, 4) == 1;
    assert PrefixXor(n, 3) == 1;
    assert PrefixXor(n, 2) == 0;
    assert PrefixXor(n, 1) == 0;
    assert PrefixXor(n, 0) == 1;
    DecodeFromBits(n, s);
    FromBitsEight(s);
  }

  lemma BitsVector1()
    ensures BitOf(133, 7) == 1 && BitOf(133, 6) == 0 && BitOf(133, 5) == 0 && BitOf(133, 4) == 0
    ensures BitOf(133, 3) == 0 && BitOf(133, 2) == 1 && BitOf(133, 1) == 0 && BitOf(133, 0) == 1
  {
    Pow2Table();
  }


  /** A020100A10020A80F000004F24AF: nibbles 4-7 are 1, 0, 0, A, the code is 8232, n is 29 and the result is (2, 0). */
  lemma GrayVector2(m: seq<Nibble>)
    requires |m| >= 8 && m[4] == 1 && m[5] == 0 && m[6] == 0 && m[7] == 10
    ensures GrayOfMessage(m) == (2, 0)
  {
    MaValueVector2(m);
    GrayInputVector2();
    GrayDecodeVector2();
    assert GrayValue(8232) == (22 / 8, LowOf(22 / 8, 29 % 8));
  }

  lemma GrayInputVector2()
    ensures GrayInput(8232) == 29
  {
    Pow2Table();
  }

  /** The running XOR over the bits of 29, most significant first. */
  lemma GrayDecodeVector2()
    ensures GrayDecode(29) == 22
  {
    BitsVector2();
    GrayDecodeOfBits2(29);
  }

  lemma GrayDecodeOfBits2(n: nat)
    requires BitOf(n, 7) == 0 && BitOf(n, 6) == 0 && BitOf(n, 5) == 0 && BitOf(n, 4) == 1
    requires BitOf(n, 3) == 1 && BitOf(n, 2) == 1 && BitOf(n, 1) == 0 && BitOf(n, 0) == 1
    ensures GrayDecode(n) == 22
  {
    var s: seq<Bit> := [0, 0, 0, 1, 0, 1, 1, 0];
    assert PrefixXor(n, 7) == 0;
    assert PrefixXor(n, 6) == 0;
    assert PrefixXor(n, 5) == 0;
    assert PrefixXor(n, 4) == 1;
    assert PrefixXor(n, 3) == 0;
    assert PrefixXor(n, 2) == 1;
    assert PrefixXor(n, 1) == 1;
    assert PrefixXor(n, 0) == 0;
    DecodeFromBits(n, s);
    FromBitsEight(s);
  }

  lemma BitsVector2()
    ensures BitOf(29, 7) == 0 && BitOf(29, 6) == 0 && BitOf(29, 5) == 0 && BitOf(29, 4) == 1
    ensures BitOf(29, 3) == 1 && BitOf(29, 2) == 1 && BitOf(29, 1) == 0 && BitOf(29, 0) == 1
  {
    Pow2Table();
  }


  /** Eight binary digits read most significant first. */
  lemma FromBitsEight(s: seq<Bit>)
    requires |s| == 8
    ensures FromBits(s) == s[0] as int * 128 + s[1] as int * 64 + s[2] as int * 32 + s[3] as int * 16
                           + s[4] as int * 8 + s[5] as int * 4 + s[6] as int * 2 + s[7] as int
  {
    FromBitsPrefix(s, 0);
    FromBitsPrefix(s, 1);
    FromBitsPrefix(s, 2);
    FromBitsPrefix(s, 3);
    FromBitsPrefix(s, 4);
    FromBitsPrefix(s, 5);
    FromBitsPrefix(s, 6);
    FromBitsPrefix(s, 7);
    assert s[..0] == [];
    assert s[..8] == s;
  }

  /** The decoded byte is its eight decoded bits read most significant first. */
  lemma DecodeFromBits(n: nat, s: seq<Bit>)
    requires |s| == 8
    requires s[0] == PrefixXor(n, 7) && s[1] == PrefixXor(n, 6) && s[2] == PrefixXor(n, 5) && s[3] == PrefixXor(n, 4)
    requires s[4] == PrefixXor(n, 3) && s[5] == PrefixXor(n, 2) && s[6] == PrefixXor(n, 1) && s[7] == PrefixXor(n, 0)
    ensures GrayDecode(n) == FromBits(s)
  {
    var g := GrayBits(n);
    assert g[0] == s[0] && g[1] == s[1] && g[2] == s[2] && g[3] == s[3];
    assert g[4] == s[4] && g[5] == s[5] && g[6] == s[6] && g[7] == s[7];
    assert g == s;
  }
}
