/**
 * The parity check that `message` (src/adsb/utils.rs) evidently means to
 * make: a frame whose parity field is plain parity (downlink formats 11, 17
 * and 18) is kept when its last 24 bits equal the CRC of the bits before
 * them; the other formats overlay the aircraft address on the parity, which
 * the receiver cannot know beforehand, so they are kept as they are.  As
 * written, `reminder` (src/adsb/crc.rs) always returns 0 and the check keeps
 * every frame; this module states the intended check and proves that it
 * accepts exactly the plain-parity frames that carry their own parity.
 */
module FrameCheck {
  import opened Wrappers
  import opened Bits
  import opened Format
  import opened Utils
  import opened Crc
  import opened Icao

  /** The parity a frame should carry: the long CRC for 28 nibbles, the short one for 14. */
  function ExpectedParity(m: seq<Nibble>): (p: nat)
    requires |m| == 14 || |m| == 28
    ensures p < 0x100_0000
  {
    if |m| == 28 then Crc112Value(m) as nat else Crc56Value(m) as nat
  }

  /** The last 24 bits of the frame, where its parity travels. */
  function ParityBits(m: seq<Nibble>): nat
    requires |m| >= 6
  {
    Field(m, 4 * |m| - 23, 4 * |m|)
  }

  /** Downlink formats whose last 24 bits are the parity alone. */
  predicate PlainParity(df: nat)
  {
    df == 11 || df == 17 || df == 18
  }

  /**
   * The intended test: a plain-parity frame's parity field equals the parity
   * of the rest of the frame; a frame with an overlaid address passes.
   */
  predicate ParityOk(m: seq<Nibble>)
    requires |m| == 14 || |m| == 28
  {
    PlainParity(Df(m)) ==> ParityBits(m) == ExpectedParity(m)
  }

  /**
   * `message` as intended: clean the line and keep a 14- or 28-digit frame
   * only when it passes the parity test.
   */
  function CheckedMessage(squitter: seq<char>): (r: Option<seq<Nibble>>)
    ensures r.Some? <==>
      CleanSquitter(squitter).Some? && ParityOk(ToNibbles(CleanSquitter(squitter).value))
    ensures r.Some? ==> r.value == ToNibbles(CleanSquitter(squitter).value)
  {
    match CleanSquitter(squitter)
    case None => None
    case Some(cleaned) =>
      var m := ToNibbles(cleaned);
      if ParityOk(m) then Some(m) else None
  }

  /** n hexadecimal digits of v, most significant first. */
  function Digits(v: nat, n: nat): (s: seq<Nibble>)
    ensures |s| == n
    decreases n
  {
    if n == 0 then [] else Digits(v / 16, n - 1) + [v % 16]
  }

  /** n digits spell any value below 16^n. */
  lemma {:induction false} DigitsValue(v: nat, n: nat)
    requires v < Pow2(4 * n)
    ensures NibblesValue(Digits(v, n)) == v
    decreases n
  {
    if n == 0 {
      assert Pow2(0) == 1;
    } else {
      var s := Digits(v, n);
      Pow2Add(4, 4 * (n - 1));
      Pow2Small();
      assert 4 + 4 * (n - 1) == 4 * n;
      DigitsValue(v / 16, n - 1);
      assert s[..n - 1] == Digits(v / 16, n - 1);
    }
  }

  /** The frame with its last six nibbles replaced by the parity p. */
  function WithParity(m: seq<Nibble>, p: nat): (m': seq<Nibble>)
    requires |m| >= 6
    ensures |m'| == |m| && m'[..|m| - 6] == m[..|m| - 6]
  {
    m[..|m| - 6] + Digits(p, 6)
  }

  /** The parity field of WithParity(m, p) reads p back. */
  lemma ParityFieldOfDigits(m: seq<Nibble>, p: nat)
    requires |m| >= 6 && p < 0x100_0000
    ensures ParityBits(WithParity(m, p)) == p
  {
    var m' := WithParity(m, p);
    assert NibblesValue(m'[|m| - 6..|m|]) == p by {
      assert m'[|m| - 6..|m|] == Digits(p, 6);
      Pow2Small24();
      DigitsValue(p, 6);
    }
    LastSixNibbles(m', |m| - 6);
  }

  lemma LastSixNibbles(m: seq<Nibble>, k: nat)
    requires |m| == k + 6
    ensures ParityBits(m) == NibblesValue(m[k..k + 6])
  {
    FieldIsNibbles(m, k, k + 6);
  }

  /** The parity depends only on what WithParity keeps. */
  lemma ExpectedParityKept(m: seq<Nibble>, p: nat)
    requires |m| == 14 || |m| == 28
    ensures ExpectedParity(WithParity(m, p)) == ExpectedParity(m)
  {
    var m' := WithParity(m, p);
    var k := |m| - 6;
    assert m[0..k] == m'[0..k];
    if |m| == 28 {
      FieldOfSameNibbles(m, m', 0, k, 1, 32);
      FieldOfSameNibbles(m, m', 0, k, 33, 64);
      FieldOfSameNibbles(m, m', 0, k, 65, 88);
      Crc112ReadsBits1To88(m, m');
    } else {
      FieldOfSameNibbles(m, m', 0, k, 1, 32);
      Crc56ReadsFirstWord(m, m');
    }
  }

  /** Replacing the parity leaves the downlink format alone. */
  lemma DfKept(m: seq<Nibble>, p: nat)
    requires |m| == 14 || |m| == 28
    ensures Df(WithParity(m, p)) == Df(m)
  {
    var m' := WithParity(m, p);
    assert m'[0] == m[0] && m'[1] == m[1];
    DfIsField(m);
    DfIsField(m');
  }

  /**
   * A plain-parity frame passes the parity test with exactly one parity
   * field: the one computed from the rest of it.
   */
  lemma OnlyOwnParityPasses(m: seq<Nibble>, p: nat)
    requires |m| == 14 || |m| == 28
    requires PlainParity(Df(m)) && p < 0x100_0000
    ensures ParityOk(WithParity(m, p)) <==> p == ExpectedParity(m)
  {
    DfKept(m, p);
    ParityFieldOfDigits(m, p);
    ExpectedParityKept(m, p);
  }

  /** Every frame passes once it carries its own parity, whatever its format. */
  lemma OwnParityPasses(m: seq<Nibble>)
    requires |m| == 14 || |m| == 28
    ensures ParityOk(WithParity(m, ExpectedParity(m)))
  {
    ParityFieldOfDigits(m, ExpectedParity(m));
    ExpectedParityKept(m, ExpectedParity(m));
  }
}
