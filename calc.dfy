/**
 * The bit-field extractor every decoder is built on: a flag bit and the value
 * of a span of bits, read straight out of the nibble buffer with `u32`
 * arithmetic (src/adsb/calc.rs).
 */
module Calc {
  import opened Wrappers
  import opened Bits

  /** Nibble index and bit offset within the nibble of a 1-based bit position. */
  function BitLocation(p: nat): (loc: (nat, nat))
    requires p >= 1
    ensures loc.1 < 4 && 4 * loc.0 + loc.1 + 1 == p
  {
    ((p - 1) / 4, (p - 1) % 4)
  }

  /** The fold over the inner nibbles: `acc << 4 | x & 0xF` in `u32` arithmetic. */
  function FoldNibbles(acc: nat, s: seq<Nibble>): nat
    decreases |s|
  {
    if s == [] then acc else FoldNibbles((acc * 16) % U32 + s[0], s[1..])
  }

  /**
   * `flag_and_range_value`: None when the span is empty (eb < sb); otherwise the
   * flag bit (0 when no flag is asked for) and the value of bits sb..eb.
   */
  function FlagAndRangeValue(m: seq<Nibble>, flag: nat, sb: nat, eb: nat): (r: Option<(nat, nat)>)
    requires 1 <= sb && 1 <= eb
    requires sb <= eb ==> eb <= 4 * |m| && flag <= 4 * |m|
    ensures r.None? <==> eb < sb
    ensures r.Some? ==> r.value.0 == (if flag == 0 then 0 else MsgBit(m, flag))
  {
    var (sbByte, sbBit) := BitLocation(sb);
    var (ebByte, ebBit) := BitLocation(eb);
    if ebByte < sbByte || (ebByte == sbByte && ebBit < sbBit) then
      None
    else
      var flagValue := if flag == 0 then 0 else FlagBit(m, flag);
      SpanValueReadsField(m, sbByte, sbBit, ebByte, ebBit);
      Some((flagValue, SpanValue(m, sbByte, sbBit, ebByte, ebBit)))
  }

  /** The flag bit: `(nibble >> (3 - bit)) & 1`. */
  function FlagBit(m: seq<Nibble>, p: nat): (b: nat)
    requires 1 <= p <= 4 * |m|
    ensures b == MsgBit(m, p)
  {
    var (i, c) := BitLocation(p);
    NibbleBitOf(m[i], c);
    (m[i] / Pow2(3 - c)) % 2
  }

  /**
   * The value part of the extractor, from bit a of nibble i to bit b of nibble j:
   * within one nibble, across two, or folding the whole nibbles in between.  The
   * masks `0xF >> k` are written as `% Pow2(4 - k)`, and `|` of disjoint bit
   * ranges as `+`.
   */
  function SpanValue(m: seq<Nibble>, i: nat, a: nat, j: nat, b: nat): int
    requires i <= j < |m| && a < 4 && b < 4 && (i == j ==> a <= b)
  {
    if j == i then SpanInOne(m[i], a, b)
    else if j == i + 1 then SpanOverTwo(m[i], m[j], a, b)
    else SpanOverMany(m[i], m[i + 1..j], m[j], a, b)
  }

  /** Bits a..b of one nibble: `(x & 0xF >> a) >> (3 - b)`. */
  function SpanInOne(x: Nibble, a: nat, b: nat): int
    requires a <= b < 4
  {
    (x % Pow2(4 - a)) / Pow2(3 - b)
  }

  /** Bits a..3 of nibble x followed by bits 0..b of nibble y. */
  function SpanOverTwo(x: Nibble, y: Nibble, a: nat, b: nat): int
    requires a < 4 && b < 4
  {
    (x % Pow2(4 - a)) * Pow2(b + 1) + y / Pow2(3 - b)
  }

  /** The head of nibble x, the whole nibbles of mid, then the top b+1 bits of y. */
  function SpanOverMany(x: Nibble, mid: seq<Nibble>, y: Nibble, a: nat, b: nat): int
    requires a < 4 && b < 4
  {
    (FoldNibbles(x % Pow2(4 - a), mid) * Pow2(b + 1)) % U32 + y / Pow2(3 - b)
  }

  /** The value of bits sb..eb alone: the extractor called with no flag. */
  function RangeValue(m: seq<Nibble>, sb: nat, eb: nat): (v: nat)
    requires 1 <= sb <= eb <= 4 * |m|
    requires eb - sb < 32
    ensures v == Field(m, sb, eb) && v < Pow2(eb - sb + 1)
  {
    RangeValueFits(m, sb, eb);
    FlagAndRangeValue(m, 0, sb, eb).value.1
  }

  lemma RangeValueFits(m: seq<Nibble>, sb: nat, eb: nat)
    requires 1 <= sb <= eb <= 4 * |m| && eb - sb < 32
    ensures FlagAndRangeValue(m, 0, sb, eb).Some?
    ensures FlagAndRangeValue(m, 0, sb, eb).value.1 == Field(m, sb, eb) < Pow2(eb - sb + 1)
  {
    var f := Field(m, sb, eb);
    FieldBound(m, sb, eb);
    Pow2Mono(eb - sb + 1, 32);
    Pow2Word();
    ModSmall(f);
    FlagAndRangeValueReadsField(m, 0, sb, eb);
  }

  /**
   * A span narrower than a word is read exactly: the flag bit (0 for no flag)
   * and the value of bits sb..eb, below 2^(eb-sb+1).
   */
  lemma FlagAndRangeValueNarrow(m: seq<Nibble>, flag: nat, sb: nat, eb: nat)
    requires 1 <= sb <= eb <= 4 * |m| && flag <= 4 * |m| && eb - sb < 32
    ensures FlagAndRangeValue(m, flag, sb, eb).Some?
    ensures FlagAndRangeValue(m, flag, sb, eb).value.0 == (if flag == 0 then 0 else MsgBit(m, flag))
    ensures FlagAndRangeValue(m, flag, sb, eb).value.1 == Field(m, sb, eb) < Pow2(eb - sb + 1)
  {
    FieldBound(m, sb, eb);
    Pow2Mono(eb - sb + 1, 32);
    Pow2Word();
    ModSmall(Field(m, sb, eb));
    FlagAndRangeValueReadsField(m, flag, sb, eb);
  }

  /**
   * The first flag-and-range test vector of the BDS module: nibble 7 = 1 sets
   * the flag at bit 32, and bits 33..37 (nibble 8 and the top bit of nibble 9)
   * read 0.
   */
  lemma FlagAndRangeVector1(m: seq<Nibble>)
    requires |m| == 14 && m[7] == 1 && m[8] == 0 && m[9] == 0
    ensures FlagAndRangeValue(m, 32, 33, 37) == Some((1, 0))
  {
    FlagAndRangeValueNarrow(m, 32, 33, 37);
    Bit32Set(m);
    WholeNibble(m, 8);
    MsgBitInNibble(m, 9, 0);
    assert Field(m, 33, 37) == 2 * Field(m, 33, 36) + MsgBit(m, 37);
  }

  /**
   * The second vector: with nibble 8 = 8, bits 33..36 read 8 and the flag at
   * bit 32 is still 1.
   */
  lemma FlagAndRangeVector2(m: seq<Nibble>)
    requires |m| == 14 && m[7] == 1 && m[8] == 8
    ensures FlagAndRangeValue(m, 32, 33, 36) == Some((1, 8))
  {
    FlagAndRangeValueNarrow(m, 32, 33, 36);
    Bit32Set(m);
    WholeNibble(m, 8);
  }

  /** Bit 32 is the low bit of nibble 7. */
  lemma Bit32Set(m: seq<Nibble>)
    requires |m| == 14 && m[7] == 1
    ensures MsgBit(m, 32) == 1
  {
    MsgBitInNibble(m, 7, 3);
  }

  lemma ModSmall(x: nat)
    requires x < U32
    ensures x % U32 == x
  {
  }

  /**
   * The extractor reads exactly bits sb..eb most significant first, reduced
   * modulo 2^32 as the `u32` accumulator wraps for spans wider than 32 bits.
   */
  lemma FlagAndRangeValueReadsField(m: seq<Nibble>, flag: nat, sb: nat, eb: nat)
    requires 1 <= sb <= eb <= 4 * |m| && flag <= 4 * |m|
    ensures FlagAndRangeValue(m, flag, sb, eb).Some?
    ensures FlagAndRangeValue(m, flag, sb, eb).value.1 == Field(m, sb, eb) % U32
  {
    var (i, a) := BitLocation(sb);
    var (j, b) := BitLocation(eb);
    assert FlagAndRangeValue(m, flag, sb, eb).value.1 == SpanValue(m, i, a, j, b);
    SpanValueReadsField(m, i, a, j, b);
  }

  lemma SpanValueReadsField(m: seq<Nibble>, i: nat, a: nat, j: nat, b: nat)
    requires i <= j < |m| && a < 4 && b < 4 && (i == j ==> a <= b)
    ensures SpanValue(m, i, a, j, b) == Field(m, 4 * i + 1 + a, 4 * j + 1 + b) % U32
  {
    if j == i {
      SpanInNibble(m, i, a, b);
    } else if j == i + 1 {
      SpanAcrossTwo(m, i, a, j, b);
    } else {
      SpanAcrossMany(m, i, a, j, b);
    }
  }

  lemma SpanInNibble(m: seq<Nibble>, i: nat, a: nat, b: nat)
    requires i < |m| && a <= b < 4
    ensures SpanValue(m, i, a, i, b) == Field(m, 4 * i + 1 + a, 4 * i + 1 + b) % U32
  {
    FieldInNibble(m, i, a, b);
    FieldBound(m, 4 * i + 1 + a, 4 * i + 1 + b);
    Pow2Mono(b - a + 1, 4);
    Pow2Small();
  }

  lemma SpanAcrossTwo(m: seq<Nibble>, i: nat, a: nat, j: nat, b: nat)
    requires j == i + 1 && j < |m| && a < 4 && b < 4
    ensures SpanValue(m, i, a, j, b) == Field(m, 4 * i + 1 + a, 4 * j + 1 + b) % U32
  {
    var sb := 4 * i + 1 + a;
    FieldSplit(m, sb, 4 * j, 4 * j + 1 + b);
    FieldNibbleTail(m, j, b);
    FieldNibbleHead(m, i, a);
    CombineTwo(m[i], m[j], a, b, Field(m, sb, 4 * j), Field(m, sb, 4 * j + 1 + b));
  }

  /** Head bits of x shifted up past the top b+1 bits of y, clear of the 2^32 wrap. */
  lemma CombineTwo(x: Nibble, y: Nibble, a: nat, b: nat, hi: nat, f: nat)
    requires a < 4 && b < 4
    requires hi == x % Pow2(4 - a)
    requires f == hi * Pow2(b + 1) + y / Pow2(3 - b)
    ensures SpanOverTwo(x, y, a, b) == f % U32
  {
    NibbleParts(x, y, a, b);
    SmallSum(hi, Pow2(b + 1), y / Pow2(3 - b));
  }

  lemma NibbleParts(x: Nibble, y: Nibble, a: nat, b: nat)
    requires a < 4 && b < 4
    ensures x % Pow2(4 - a) < 16 && y / Pow2(3 - b) < 16 && Pow2(b + 1) <= 16
  {
    Pow2Small();
  }

  lemma SpanAcrossMany(m: seq<Nibble>, i: nat, a: nat, j: nat, b: nat)
    requires i + 2 <= j < |m| && a < 4 && b < 4
    ensures SpanValue(m, i, a, j, b) == Field(m, 4 * i + 1 + a, 4 * j + 1 + b) % U32
  {
    var sb := 4 * i + 1 + a;
    FieldSplit(m, sb, 4 * j, 4 * j + 1 + b);
    FieldNibbleTail(m, j, b);
    FieldNibbleHead(m, i, a);
    FoldExtendsField(m, sb, i + 1, j);
    CombineMany(m[i], m[i + 1..j], m[j], a, b,
      Field(m, sb, 4 * (i + 1)), Field(m, sb, 4 * j), Field(m, sb, 4 * j + 1 + b));
  }

  /** The fold seeded with the head nibble's low bits, shifted up to take the tail bits. */
  lemma CombineMany(x: Nibble, mid: seq<Nibble>, y: Nibble, a: nat, b: nat, h0: nat, hi: nat, f: nat)
    requires a < 4 && b < 4
    requires h0 == x % Pow2(4 - a)
    requires FoldNibbles(h0 % U32, mid) == hi % U32
    requires f == hi * Pow2(b + 1) + y / Pow2(3 - b)
    ensures SpanOverMany(x, mid, y, a, b) == f % U32
  {
    NibbleParts(x, y, a, b);
    TailBound(y, b);
    assert h0 % U32 == h0;
    CombineSpan(SpanOverMany(x, mid, y, a, b), FoldNibbles(h0, mid), hi, b, y / Pow2(3 - b), f);
  }

  lemma CombineSpan(v: int, fold: nat, hi: nat, b: nat, tail: nat, f: nat)
    requires b < 4 && tail < Pow2(b + 1)
    requires v == (fold * Pow2(b + 1)) % U32 + tail && fold == hi % U32
    requires f == hi * Pow2(b + 1) + tail
    ensures v == f % U32
  {
    ShiftInLow(hi, b, tail);
  }

  lemma TailBound(x: Nibble, b: nat)
    requires b < 4
    ensures x / Pow2(3 - b) < Pow2(b + 1)
  {
    Pow2Small();
  }

  lemma SmallSum(head: nat, p: nat, tail: nat)
    requires head < 16 && p <= 16 && tail < 16
    ensures (head * p + tail) % U32 == head * p + tail
  {
    assert head * p <= 16 * 16;
  }

  /** Bits shifted in below a value moved up by b+1 places stay clear of the 2^32 wrap. */
  lemma ShiftInLow(hi: nat, b: nat, tail: nat)
    requires b < 4 && tail < Pow2(b + 1)
    ensures ((hi % U32) * Pow2(b + 1)) % U32 + tail == (hi * Pow2(b + 1) + tail) % U32
  {
    Pow2Small();
    ModMulAdd(hi, Pow2(b + 1), 0);
    if b == 0 {
      AddBelowShift2(hi, tail);
    } else if b == 1 {
      AddBelowShift4(hi, tail);
    } else if b == 2 {
      AddBelowShift8(hi, tail);
    } else {
      AddBelowShift16(hi, tail);
    }
  }

  lemma AddBelowShift2(x: nat, t: nat)
    requires t < 2
    ensures (x * 2) % U32 + t == (x * 2 + t) % U32
  {
  }

  lemma AddBelowShift4(x: nat, t: nat)
    requires t < 4
    ensures (x * 4) % U32 + t == (x * 4 + t) % U32
  {
  }

  lemma AddBelowShift8(x: nat, t: nat)
    requires t < 8
    ensures (x * 8) % U32 + t == (x * 8 + t) % U32
  {
  }

  lemma AddBelowShift16(x: nat, t: nat)
    requires t < 16
    ensures (x * 16) % U32 + t == (x * 16 + t) % U32
  {
  }

  /**
   * Folding whole nibbles k..j-1 onto the (wrapped) value of bits sb..4k gives
   * the (wrapped) value of bits sb..4j.
   */
  lemma {:induction false} FoldExtendsField(m: seq<Nibble>, sb: nat, k: nat, j: nat)
    requires 1 <= sb <= 4 * k + 1 && k <= j <= |m|
    ensures FoldNibbles(Field(m, sb, 4 * k) % U32, m[k..j]) == Field(m, sb, 4 * j) % U32
    decreases j - k
  {
    if k == j {
      assert m[k..j] == [];
    } else {
      var acc := Field(m, sb, 4 * k) % U32;
      assert FoldNibbles(acc, m[k..j]) == FoldNibbles((acc * 16) % U32 + m[k], m[k + 1..j]) by {
        assert m[k..j][0] == m[k] && m[k..j][1..] == m[k + 1..j];
      }
      FieldNextNibble(m, sb, k);
      FoldStep(Field(m, sb, 4 * k), m[k]);
      assert 4 * (k + 1) == 4 * k + 4;
      FoldExtendsField(m, sb, k + 1, j);
    }
  }

  /** One step of the fold keeps the accumulator equal to the wrapped field value. */
  lemma FoldStep(f: nat, x: Nibble)
    ensures ((f % U32) * 16) % U32 + x == (f * 16 + x) % U32
  {
    ModMulAdd(f, 16, 0);
    AddBelowShift16(f, x);
  }

  /** Reducing a factor modulo 2^32 before multiplying and adding changes nothing modulo 2^32. */
  lemma ModMulAdd(a: nat, p: nat, c: nat)
    ensures ((a % U32) * p + c) % U32 == (a * p + c) % U32
  {
    var q := a / U32;
    assert a == q * U32 + a % U32;
    assert a * p + c == ((a % U32) * p + c) + (q * p) * U32;
    ModMultiple((a % U32) * p + c, q * p);
  }

  lemma ModMultiple(x: nat, n: nat)
    ensures (x + n * U32) % U32 == x % U32
  {
    DivUnique(x + n * U32, U32, x / U32 + n, x % U32);
  }
}
