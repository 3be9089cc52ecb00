/**
 * Bit-level view of a Mode S message.
 *
 * A message is held as the sequence of its hexadecimal digits (one nibble per
 * entry, 14 for a short squitter, 28 for a long one).  Bits are numbered from 1
 * at the most significant bit of the first nibble, as Annex 10 numbers them.
 * `Field(m, sb, eb)` is the reference meaning of "bits sb..eb read most
 * significant first"; every extractor in the model is proved against it.
 */
module Bits {

  /** One hexadecimal digit of a squitter. */
  type Nibble = x: int | 0 <= x < 16

  /** A single binary digit. */
  type Bit = x: int | 0 <= x < 2

  /** The modulus of Rust's `u32` arithmetic. */
  const U32: nat := 0x1_0000_0000

  function Pow2(k: nat): (r: nat)
    ensures r >= 1
    decreases k
  {
    if k == 0 then 1 else 2 * Pow2(k - 1)
  }

  lemma {:induction false} Pow2Add(a: nat, b: nat)
    ensures Pow2(a + b) == Pow2(a) * Pow2(b)
    decreases a
  {
    if a > 0 {
      Pow2Add(a - 1, b);
      assert Pow2(a + b) == 2 * Pow2(a - 1 + b);
    }
  }

  lemma Pow2Small()
    ensures Pow2(0) == 1 && Pow2(1) == 2 && Pow2(2) == 4 && Pow2(3) == 8 && Pow2(4) == 16
  {
  }

  /** The powers of two up to 2^16. */
  lemma Pow2Table()
    ensures Pow2(0) == 1 && Pow2(1) == 2 && Pow2(2) == 4 && Pow2(3) == 8 && Pow2(4) == 16
    ensures Pow2(5) == 32 && Pow2(6) == 64 && Pow2(7) == 128 && Pow2(8) == 256
    ensures Pow2(9) == 512 && Pow2(10) == 1024 && Pow2(11) == 2048 && Pow2(12) == 4096
    ensures Pow2(13) == 8192 && Pow2(14) == 16384 && Pow2(15) == 32768 && Pow2(16) == 65536
  {
    Pow2Small();
    assert Pow2(5) == 2 * Pow2(4);
    assert Pow2(6) == 2 * Pow2(5);
    assert Pow2(7) == 2 * Pow2(6);
    assert Pow2(8) == 2 * Pow2(7);
    assert Pow2(9) == 2 * Pow2(8);
    assert Pow2(10) == 2 * Pow2(9);
    assert Pow2(11) == 2 * Pow2(10);
    assert Pow2(12) == 2 * Pow2(11);
    assert Pow2(13) == 2 * Pow2(12);
    assert Pow2(14) == 2 * Pow2(13);
    assert Pow2(15) == 2 * Pow2(14);
    assert Pow2(16) == 2 * Pow2(15);
  }

  lemma Pow2Word()
    ensures Pow2(8) == 256 && Pow2(16) == 0x1_0000 && Pow2(32) == U32
  {
    Pow2Add(4, 4);
    Pow2Add(8, 8);
    Pow2Add(16, 16);
  }

  /** Bit k (0 = least significant) of a non-negative integer. */
  function BitOf(x: nat, k: nat): (b: Bit)
  {
    x / Pow2(k) % 2
  }

  /** Bit c of a nibble, counting from its most significant bit (c = 0). */
  function NibbleBit(x: Nibble, c: nat): (b: Bit)
    requires c < 4
  {
    if c == 0 then x / 8 % 2
    else if c == 1 then x / 4 % 2
    else if c == 2 then x / 2 % 2
    else x % 2
  }

  /** Bit p (1-based, Annex 10 numbering) of the message. */
  function MsgBit(m: seq<Nibble>, p: nat): (b: Bit)
    requires 1 <= p <= 4 * |m|
  {
    NibbleBit(m[(p - 1) / 4], (p - 1) % 4)
  }

  /** Counting from the top of a nibble is counting down from bit 3. */
  lemma NibbleBitOf(x: Nibble, c: nat)
    requires c < 4
    ensures NibbleBit(x, c) == BitOf(x, 3 - c)
  {
    Pow2Small();
  }

  /** Bits sb..eb of the message read most significant first; 0 when the span is empty. */
  function Field(m: seq<Nibble>, sb: nat, eb: nat): nat
    requires 1 <= sb && eb <= 4 * |m|
    decreases eb
  {
    if eb < sb then 0 else 2 * Field(m, sb, eb - 1) + MsgBit(m, eb)
  }

  /** Spans agree when every bit in them agrees. */
  lemma {:induction false} FieldAgree(m: seq<Nibble>, m': seq<Nibble>, sb: nat, eb: nat)
    requires 1 <= sb && eb <= 4 * |m| && eb <= 4 * |m'|
    requires forall p :: sb <= p <= eb ==> MsgBit(m, p) == MsgBit(m', p)
    ensures Field(m, sb, eb) == Field(m', sb, eb)
    decreases eb
  {
    if eb >= sb {
      FieldAgree(m, m', sb, eb - 1);
    }
  }

  /** Messages that agree on nibbles i..j-1 agree on bits 4i+1..4j. */
  lemma NibblesAgree(m: seq<Nibble>, m': seq<Nibble>, i: nat, j: nat)
    requires i <= j <= |m| && j <= |m'|
    requires m[i..j] == m'[i..j]
    ensures forall p :: 4 * i + 1 <= p <= 4 * j ==> MsgBit(m, p) == MsgBit(m', p)
  {
    forall p | 4 * i + 1 <= p <= 4 * j
      ensures MsgBit(m, p) == MsgBit(m', p)
    {
      var k := (p - 1) / 4;
      assert m[k] == m[i..j][k - i] == m'[i..j][k - i] == m'[k];
    }
  }

  /** Messages that agree on nibbles i..j-1 agree on every span inside bits 4i+1..4j. */
  lemma FieldOfSameNibbles(m: seq<Nibble>, m': seq<Nibble>, i: nat, j: nat, sb: nat, eb: nat)
    requires i <= j <= |m| && j <= |m'|
    requires m[i..j] == m'[i..j]
    requires 4 * i + 1 <= sb && eb <= 4 * j
    ensures Field(m, sb, eb) == Field(m', sb, eb)
  {
    NibblesAgree(m, m', i, j);
    FieldAgree(m, m', sb, eb);
  }

  lemma {:induction false} Pow2Mono(a: nat, b: nat)
    requires a <= b
    ensures Pow2(a) <= Pow2(b)
    decreases b
  {
    if a < b {
      Pow2Mono(a, b - 1);
    }
  }

  /** A sequence of binary digits read most significant first. */
  function FromBits(s: seq<Bit>): nat
    decreases |s|
  {
    if s == [] then 0 else 2 * FromBits(s[..|s| - 1]) + s[|s| - 1]
  }

  lemma {:induction false} FieldBound(m: seq<Nibble>, sb: nat, eb: nat)
    requires 1 <= sb <= eb + 1 && eb <= 4 * |m|
    ensures Field(m, sb, eb) < Pow2(eb + 1 - sb)
    decreases eb
  {
    if eb >= sb {
      FieldBound(m, sb, eb - 1);
      assert Pow2(eb + 1 - sb) == 2 * Pow2(eb - sb);
    }
  }

  /** Splitting a span after bit k: the high part is shifted past the low part. */
  lemma {:induction false} FieldSplit(m: seq<Nibble>, sb: nat, k: nat, eb: nat)
    requires 1 <= sb && sb <= k + 1 && k <= eb && eb <= 4 * |m|
    ensures Field(m, sb, eb) == Field(m, sb, k) * Pow2(eb - k) + Field(m, k + 1, eb)
    decreases eb
  {
    if eb > k {
      FieldSplit(m, sb, k, eb - 1);
      var a, p, b := Field(m, sb, k), Pow2(eb - 1 - k), Field(m, k + 1, eb - 1);
      var bit := MsgBit(m, eb);
      assert Pow2(eb - k) == 2 * p;
      assert Field(m, k + 1, eb) == 2 * b + bit;
      ShiftOneMore(a, p, b, bit);
    }
  }

  lemma ShiftOneMore(a: int, p: int, b: int, bit: int)
    ensures 2 * (a * p + b) + bit == a * (2 * p) + (2 * b + bit)
  {
  }

  lemma NibbleSliceBase(x: Nibble, a: nat)
    requires a <= 3
    ensures (x % Pow2(4 - a)) / Pow2(3 - a) == BitOf(x, 3 - a)
  {
    Pow2Small();
  }

  lemma NibbleSliceStep(x: Nibble, a: nat, c: nat)
    requires a < c <= 3
    ensures (x % Pow2(4 - a)) / Pow2(3 - c) == 2 * ((x % Pow2(4 - a)) / Pow2(4 - c)) + BitOf(x, 3 - c)
  {
    Pow2Small();
    var q, lo := Pow2(4 - a), Pow2(3 - c);
    assert Pow2(4 - c) == 2 * lo;
    HalveMasked(x, q, lo);
  }

  /** Dropping one more low bit of a masked nibble, for the masks and shifts that occur. */
  lemma HalveMasked(x: Nibble, q: nat, lo: nat)
    requires (q == 16 && lo <= 4) || (q == 8 && lo <= 2) || (q == 4 && lo == 1)
    requires lo == 4 || lo == 2 || lo == 1
    ensures (x % q) / lo == 2 * ((x % q) / (2 * lo)) + x / lo % 2
  {
    if q == 16 && lo == 4 {
      HalveMasked16By4(x);
    } else if q == 16 && lo == 2 {
      HalveMasked16By2(x);
    } else if q == 16 && lo == 1 {
      HalveMasked16By1(x);
    } else if q == 8 && lo == 2 {
      HalveMasked8By2(x);
    } else if q == 8 && lo == 1 {
      HalveMasked8By1(x);
    } else if q == 4 && lo == 1 {
      HalveMasked4By1(x);
    }
  }

  lemma HalveMasked16By4(x: Nibble)
    ensures (x % 16) / 4 == 2 * ((x % 16) / 8) + x / 4 % 2
  {
  }

  lemma HalveMasked16By2(x: Nibble)
    ensures (x % 16) / 2 == 2 * ((x % 16) / 4) + x / 2 % 2
  {
  }

  lemma HalveMasked16By1(x: Nibble)
    ensures (x % 16) / 1 == 2 * ((x % 16) / 2) + x / 1 % 2
  {
  }

  lemma HalveMasked8By2(x: Nibble)
    ensures (x % 8) / 2 == 2 * ((x % 8) / 4) + x / 2 % 2
  {
  }

  lemma HalveMasked8By1(x: Nibble)
    ensures (x % 8) / 1 == 2 * ((x % 8) / 2) + x / 1 % 2
  {
  }

  lemma HalveMasked4By1(x: Nibble)
    ensures (x % 4) / 1 == 2 * ((x % 4) / 2) + x / 1 % 2
  {
  }

  /** Bits a..c of nibble i (0 = its most significant bit) are its value masked and shifted. */
  lemma {:induction false} FieldInNibble(m: seq<Nibble>, i: nat, a: nat, c: nat)
    requires i < |m| && a <= c <= 3
    ensures Field(m, 4 * i + 1 + a, 4 * i + 1 + c) == (m[i] % Pow2(4 - a)) / Pow2(3 - c)
    decreases c
  {
    var sb := 4 * i + 1 + a;
    MsgBitInNibble(m, i, c);
    if c == a {
      assert Field(m, sb, sb - 1) == 0;
      NibbleSliceBase(m[i], a);
    } else {
      FieldInNibble(m, i, a, c - 1);
      assert 4 * i + 1 + (c - 1) == 4 * i + 1 + c - 1;
      assert 3 - (c - 1) == 4 - c;
      NibbleSliceStep(m[i], a, c);
    }
  }

  lemma MsgBitInNibble(m: seq<Nibble>, i: nat, c: nat)
    requires i < |m| && c <= 3
    ensures MsgBit(m, 4 * i + 1 + c) == BitOf(m[i], 3 - c)
  {
    assert (4 * i + 1 + c - 1) / 4 == i && (4 * i + 1 + c - 1) % 4 == c;
    NibbleBitOf(m[i], c);
  }

  /** The four bits of nibble i are the nibble itself. */
  lemma WholeNibble(m: seq<Nibble>, i: nat)
    requires i < |m|
    ensures Field(m, 4 * i + 1, 4 * i + 4) == m[i]
  {
    var s, x := 4 * i + 1, m[i];
    assert MsgBit(m, s) == x / 8 % 2 by {
      assert (s - 1) / 4 == i && (s - 1) % 4 == 0;
    }
    assert MsgBit(m, s + 1) == x / 4 % 2 by {
      assert (s + 1 - 1) / 4 == i && (s + 1 - 1) % 4 == 1;
    }
    assert MsgBit(m, s + 2) == x / 2 % 2 by {
      assert (s + 2 - 1) / 4 == i && (s + 2 - 1) % 4 == 2;
    }
    assert MsgBit(m, s + 3) == x % 2 by {
      assert (s + 3 - 1) / 4 == i && (s + 3 - 1) % 4 == 3;
    }
    assert Field(m, s, s) == x / 8 % 2 by {
      assert Field(m, s, s - 1) == 0;
    }
    assert Field(m, s, s + 1) == 2 * Field(m, s, s) + x / 4 % 2;
    assert Field(m, s, s + 2) == 2 * Field(m, s, s + 1) + x / 2 % 2;
    assert Field(m, s, s + 3) == 2 * Field(m, s, s + 2) + x % 2;
    NibbleDigits(x);
  }

  /** Appending a whole nibble to a span shifts it up four places. */
  lemma FieldNextNibble(m: seq<Nibble>, sb: nat, k: nat)
    requires 1 <= sb <= 4 * k + 1 && k < |m|
    ensures Field(m, sb, 4 * k + 4) == Field(m, sb, 4 * k) * 16 + m[k]
  {
    FieldSplit(m, sb, 4 * k, 4 * k + 4);
    WholeNibble(m, k);
    assert Pow2(4 * k + 4 - 4 * k) == 16 by {
      Pow2Small();
    }
  }

  /** Whole nibbles read as one hexadecimal number, most significant first. */
  function NibblesValue(s: seq<Nibble>): nat
    decreases |s|
  {
    if s == [] then 0 else 16 * NibblesValue(s[..|s| - 1]) + s[|s| - 1]
  }

  /** A span made of whole nibbles k..j-1 is those nibbles read in hexadecimal. */
  lemma {:induction false} FieldIsNibbles(m: seq<Nibble>, k: nat, j: nat)
    requires k <= j <= |m|
    ensures Field(m, 4 * k + 1, 4 * j) == NibblesValue(m[k..j])
    decreases j
  {
    if j == k {
      assert m[k..j] == [];
    } else {
      FieldIsNibbles(m, k, j - 1);
      FieldNextNibble(m, 4 * k + 1, j - 1);
      assert m[k..j][..j - k - 1] == m[k..j - 1];
      assert 4 * (j - 1) + 4 == 4 * j;
    }
  }

  lemma NibbleDigits(x: Nibble)
    ensures x == 2 * (2 * (2 * (x / 8 % 2) + x / 4 % 2) + x / 2 % 2) + x % 2
  {
  }

  /** The leading b+1 bits of nibble j: the nibble shifted down. */
  lemma FieldNibbleTail(m: seq<Nibble>, j: nat, b: nat)
    requires j < |m| && b < 4
    ensures Field(m, 4 * j + 1, 4 * j + 1 + b) == m[j] / Pow2(3 - b)
  {
    FieldInNibble(m, j, 0, b);
    assert Pow2(4 - 0) == 16;
    assert m[j] % 16 == m[j];
  }

  /** The trailing bits of nibble i from bit a on: the nibble masked. */
  lemma FieldNibbleHead(m: seq<Nibble>, i: nat, a: nat)
    requires i < |m| && a < 4
    ensures Field(m, 4 * i + 1 + a, 4 * (i + 1)) == m[i] % Pow2(4 - a)
  {
    FieldInNibble(m, i, a, 3);
    var y := m[i] % Pow2(4 - a);
    assert Pow2(3 - 3) == 1;
    assert y / 1 == y;
    assert 4 * i + 1 + 3 == 4 * (i + 1);
  }

  lemma {:induction false} FromBitsBound(s: seq<Bit>)
    ensures FromBits(s) < Pow2(|s|)
    decreases |s|
  {
    if s != [] {
      FromBitsBound(s[..|s| - 1]);
    }
  }

  /** Reading one more digit doubles the prefix and adds the digit. */
  lemma FromBitsPrefix(s: seq<Bit>, k: nat)
    requires k < |s|
    ensures FromBits(s[..k + 1]) == 2 * FromBits(s[..k]) + s[k]
  {
    assert s[..k + 1][..k] == s[..k];
  }

  /**
   * Placing digit i of s at bit n-1-i of a value that holds digits 0..i-1 at
   * bits n-1..n-i: the prefix grows by one digit.
   */
  lemma FromBitsStep(s: seq<Bit>, i: nat, n: nat)
    requires i < |s| && i < n
    ensures FromBits(s[..i + 1]) * Pow2(n - 1 - i) == FromBits(s[..i]) * Pow2(n - i) + s[i] * Pow2(n - 1 - i)
  {
    var p := Pow2(n - 1 - i);
    var a := FromBits(s[..i]);
    assert Pow2(n - i) == 2 * p;
    FromBitsPrefix(s, i);
    assert (2 * a + s[i]) * p == a * (2 * p) + s[i] * p;
  }

  /** The digit at index i of a most-significant-first bit sequence is bit |s|-1-i of its value. */
  lemma {:induction false} FromBitsBit(s: seq<Bit>, i: nat)
    requires i < |s|
    ensures BitOf(FromBits(s), |s| - 1 - i) == s[i]
    decreases |s|
  {
    var init := s[..|s| - 1];
    var v := FromBits(s);
    if i == |s| - 1 {
      assert BitOf(v, 0) == v % 2;
    } else {
      FromBitsBit(init, i);
      var k := |s| - 2 - i;
      assert init[i] == s[i];
      calc {
        BitOf(v, k + 1);
        v / Pow2(k + 1) % 2;
        { DivTwice(v, k); }
        (v / 2) / Pow2(k) % 2;
        { assert v / 2 == FromBits(init); }
        BitOf(FromBits(init), k);
      }
    }
  }

  lemma DivTwice(v: nat, k: nat)
    ensures v / Pow2(k + 1) == (v / 2) / Pow2(k)
  {
    var p := Pow2(k);
    assert Pow2(k + 1) == 2 * p;
    var q := v / (2 * p);
    var r := v % (2 * p);
    assert v == q * (2 * p) + r && r < 2 * p;
    assert v / 2 == q * p + r / 2;
    assert r / 2 < p;
    DivUnique(v / 2, p, q, r / 2);
  }

  /** Integer division is determined by quotient and remainder. */
  lemma DivUnique(x: nat, d: nat, q: nat, r: nat)
    requires d > 0 && x == q * d + r && r < d
    ensures x / d == q && x % d == r
  {
    var q', r' := x / d, x % d;
    assert x == q' * d + r' && 0 <= r' < d;
    var z := q - q';
    assert z * d == r' - r by {
      assert q * d - q' * d == (q - q') * d;
    }
    assert z == 0;
  }

  /** A value below 2^n is the bits 0..n-1 read back most significant first. */
  function BitsOf(x: nat, n: nat): (s: seq<Bit>)
    ensures |s| == n
    decreases n
  {
    if n == 0 then [] else BitsOf(x / 2, n - 1) + [x % 2]
  }

  lemma {:induction false} FromBitsOfBits(x: nat, n: nat)
    requires x < Pow2(n)
    ensures FromBits(BitsOf(x, n)) == x
    decreases n
  {
    if n > 0 {
      var s := BitsOf(x, n);
      assert s[..|s| - 1] == BitsOf(x / 2, n - 1);
      FromBitsOfBits(x / 2, n - 1);
    }
  }

  lemma {:induction false} BitsOfBit(x: nat, n: nat, i: nat)
    requires i < n
    ensures BitsOf(x, n)[i] == BitOf(x, n - 1 - i)
    decreases n
  {
    if i < n - 1 {
      BitsOfBit(x / 2, n - 1, i);
      DivTwice(x, n - 2 - i);
    }
  }
}
