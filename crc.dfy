/**
 * The Mode S parity computations (src/adsb/crc.rs): the 24-bit CRC with
 * generator 0xFFFA0480 computed by a shift register over the message words,
 * for the 56-bit and the 112-bit frame, and the byte-wise `reminder`.
 */
module Crc {
  import opened Bits
  import opened Calc

  /** The generator polynomial, aligned to the top of a 32-bit word. */
  const Poly: bv32 := 0xFFFA0480

  /** `if data & 0x80000000 != 0 { data ^= poly }`: subtract the generator when the top bit is set. */
  function Reduce(d: bv32): bv32
  {
    if d & 0x8000_0000 != 0 then d ^ Poly else d
  }

  /** `if w & 0x80000000 != 0 { .. |= 1 }`: the top bit of a word, carried into the word above. */
  function Carry(w: bv32): bv32
  {
    if w & 0x8000_0000 != 0 then 1 else 0
  }

  /**
   * The `data` word after n more passes of the `crc112` loop, starting from the
   * register words (data, data1, data2).  One pass reduces and shifts `data`,
   * carrying in the top bit of `data1`, then shifts `data1`, carrying in the top
   * bit of `data2`, then shifts `data2`.
   */
  function Run112(data: bv32, data1: bv32, data2: bv32, n: nat): bv32
    decreases n
  {
    if n == 0 then data
    else Run112((Reduce(data) << 1) | Carry(data1), (data1 << 1) | Carry(data2), data2 << 1, n - 1)
  }

  /** The `data` word after n more passes of the `crc56` loop. */
  function Run56(data: bv32, n: nat): bv32
    decreases n
  {
    if n == 0 then data else Run56(Reduce(data) << 1, n - 1)
  }

  /** `range_value(..).unwrap()` as a `u32`: a span of at most 32 bits. */
  function Word(m: seq<Nibble>, sb: nat, eb: nat): bv32
    requires 1 <= sb <= eb <= 4 * |m| && eb - sb < 32
  {
    var v := RangeValue(m, sb, eb);
    Pow2Mono(eb - sb + 1, 32);
    Pow2Word();
    v as bv32
  }

  /** The parity read out of the register word: `data >> 8`, its top 24 bits. */
  function Top24(d: bv32): bv24
  {
    (d >> 8) as bv24
  }

  /** A parity, read as a number, is below 2^24. */
  lemma ParityNumber(p: bv24)
    ensures p as nat < 0x100_0000
  {
  }

  /** The long parity of the three message words, the third shifted up 8 places. */
  function Crc112Of(w0: bv32, w1: bv32, w2: bv32): bv24
  {
    Top24(Run112(w0, w1, w2 << 8, 88))
  }

  /** The short parity of the first message word. */
  function Crc56Of(w0: bv32): bv24
  {
    Top24(Run56(w0, 32))
  }

  /** The parity of a long frame, over bits 1-32, 33-64 and 65-88. */
  function Crc112Value(m: seq<Nibble>): bv24
    requires |m| >= 22
  {
    Crc112Of(Word(m, 1, 32), Word(m, 33, 64), Word(m, 65, 88))
  }

  /** The parity of a short frame, over bits 1-32. */
  function Crc56Value(m: seq<Nibble>): bv24
    requires |m| >= 8
  {
    Crc56Of(Word(m, 1, 32))
  }

  /** `get_crc`: the short computation for DF 0..15, the long one otherwise; both are 24-bit values. */
  function GetCrc(m: seq<Nibble>, df: nat): (crc: bv24)
    requires df <= 15 ==> |m| >= 8
    requires df > 15 ==> |m| >= 22
    ensures df <= 15 ==> crc == Crc56Value(m)
    ensures df > 15 ==> crc == Crc112Value(m)
  {
    if df <= 15 then Crc56Value(m) else Crc112Value(m)
  }

  /** `crc112`: load bits 1-32, 33-64 and 65-88, move the third up 8 places and run the register. */
  method Crc112(m: seq<Nibble>) returns (crc: bv24)
    requires |m| >= 22
    ensures crc == Crc112Value(m)
  {
    var data := Word(m, 1, 32);
    var data1 := Word(m, 33, 64);
    var data2 := Word(m, 65, 88);
    data2 := data2 << 8;
    data := ShiftRegister112(data, data1, data2, 88);
    crc := Top24(data);
  }

  /**
   * The loop of `crc112`: n passes (88 in `crc112`) of the three-word
   * register; the parity is then read from the top 24 bits of `data`.
   */
  method ShiftRegister112(w0: bv32, w1: bv32, w2: bv32, n: nat) returns (data: bv32)
    ensures data == Run112(w0, w1, w2, n)
  {
    var data1, data2;
    data, data1, data2 := w0, w1, w2;
    for i := 0 to n
      invariant Run112(data, data1, data2, n - i) == Run112(w0, w1, w2, n)
    {
      data := Reduce(data);
      data := data << 1;
      data := data | Carry(data1);
      data1 := data1 << 1;
      data1 := data1 | Carry(data2);
      data2 := data2 << 1;
    }
  }

  /** `crc56`: the same register on bits 1-32 alone. */
  method Crc56(m: seq<Nibble>) returns (crc: bv24)
    requires |m| >= 8
    ensures crc == Crc56Value(m)
  {
    var data := Word(m, 1, 32);
    data := ShiftRegister56(data, 32);
    crc := Top24(data);
  }

  /** The loop of `crc56`: n passes (32 in `crc56`) of the one-word register. */
  method ShiftRegister56(w0: bv32, n: nat) returns (data: bv32)
    ensures data == Run56(w0, n)
  {
    var d := w0;
    for i := 0 to n
      invariant Run56(d, n - i) == Run56(w0, n)
    {
      d := Reduce(d);
      d := d << 1;
    }
    data := d;
  }

  /** With both lower words empty the long register behaves as the single word. */
  lemma {:induction false} Run56IsRun112WithZeros(d: bv32, n: nat)
    ensures Run112(d, 0, 0, n) == Run56(d, n)
    decreases n
  {
    if n > 0 {
      assert (Reduce(d) << 1) | Carry(0) == Reduce(d) << 1;
      assert ((0 as bv32) << 1) | Carry(0) == 0;
      Run56IsRun112WithZeros(Reduce(d) << 1, n - 1);
    }
  }

  /** The short parity is the long register run over bits 1-32 followed by zero bits. */
  lemma Crc56IsPaddedCrc(m: seq<Nibble>)
    requires |m| >= 8
    ensures Crc56Value(m) == Top24(Run112(Word(m, 1, 32), 0, 0, 32))
  {
    Run56IsRun112WithZeros(Word(m, 1, 32), 32);
  }

  /** The short parity depends on bits 1-32 only. */
  lemma Crc56ReadsFirstWord(m: seq<Nibble>, m': seq<Nibble>)
    requires |m| >= 8 && |m'| >= 8
    requires Field(m, 1, 32) == Field(m', 1, 32)
    ensures Crc56Value(m) == Crc56Value(m')
  {
    WordReadsField(m, m', 1, 32);
  }

  /** The long parity depends on bits 1-88 only. */
  lemma Crc112ReadsBits1To88(m: seq<Nibble>, m': seq<Nibble>)
    requires |m| >= 22 && |m'| >= 22
    requires Field(m, 1, 32) == Field(m', 1, 32)
    requires Field(m, 33, 64) == Field(m', 33, 64)
    requires Field(m, 65, 88) == Field(m', 65, 88)
    ensures Crc112Value(m) == Crc112Value(m')
  {
    WordReadsField(m, m', 1, 32);
    WordReadsField(m, m', 33, 64);
    WordReadsField(m, m', 65, 88);
  }

  /** A word is determined by the bits it spans. */
  lemma WordReadsField(m: seq<Nibble>, m': seq<Nibble>, sb: nat, eb: nat)
    requires 1 <= sb <= eb <= 4 * |m| && eb <= 4 * |m'| && eb - sb < 32
    requires Field(m, sb, eb) == Field(m', sb, eb)
    ensures Word(m, sb, eb) == Word(m', sb, eb)
  {
    assert RangeValue(m, sb, eb) == RangeValue(m', sb, eb);
  }

  /** A span whose bits read as the number w is the word w. */
  lemma WordOfField(m: seq<Nibble>, sb: nat, eb: nat, w: bv32)
    requires 1 <= sb <= eb <= 4 * |m| && eb - sb < 32
    requires Field(m, sb, eb) == w as nat
    ensures Word(m, sb, eb) == w
  {
    var v := RangeValue(m, sb, eb);
    NatWord(v, w);
  }

  lemma NatWord(v: nat, w: bv32)
    requires v == w as nat
    ensures v < U32 && v as bv32 == w
  {
  }

  /**
   * `reminder`: the message nibbles, each taken as a byte, with the last six
   * replaced by zero bytes, divided bit by bit by the generator bytes
   * FF FA 04 80; the result is read from the last three bytes.  The division
   * only ever writes bytes i..i+3 for i < len-6, so the last three bytes keep
   * their initial zeros and the result is always 0.
   */
  method Reminder(message: seq<Nibble>) returns (r: bv32)
    requires |message| >= 6
    ensures r == 0
  {
    var generator: seq<bv16> := [0xFF, 0xFA, 0x04, 0x80];
    var n := |message|;
    var bytes := new bv8[n];
    for k := 0 to n
      invariant forall t :: 0 <= t < k ==> bytes[t] == if t < n - 6 then message[t] as bv8 else 0
    {
      bytes[k] := if k < n - 6 then message[k] as bv8 else 0;
    }
    for i := 0 to n - 6
      invariant forall t :: n - 3 <= t < n ==> bytes[t] == 0
    {
      for j := 0 to 8
        invariant forall t :: n - 3 <= t < n ==> bytes[t] == 0
      {
        var mask: bv8 := 0x80 >> j;
        if bytes[i] & mask != 0 {
          bytes[i] := bytes[i] ^ Low(generator[0] >> j);
          bytes[i + 1] := bytes[i + 1] ^ (Low(generator[0] << (8 - j)) | Low(generator[1] >> j));
          bytes[i + 2] := bytes[i + 2] ^ (Low(generator[1] << (8 - j)) | Low(generator[2] >> j));
          bytes[i + 3] := bytes[i + 3] ^ (Low(generator[2] << (8 - j)) | Low(generator[3] >> j));
        }
      }
    }
    var res: bv32 := ((bytes[n - 3] as bv32) << 16) | ((bytes[n - 2] as bv32) << 8) | (bytes[n - 1] as bv32);
    r := res;
  }

  /** The `as u8` cast: the low byte. */
  function Low(x: bv16): bv8
  {
    (x & 0xFF) as bv8
  }
}
