/**
 * The aircraft address (src/adsb/icao.rs).  Replies to an interrogation
 * (DF 0, 4, 5, 16, 20, 21) carry no address of their own: their last 24 bits
 * are the parity overlaid with the address, so XOR with the computed parity
 * gives it back.  Every other format announces the address in bits 9-32.
 */
module Icao {
  import opened Wrappers
  import opened Bits
  import opened Calc
  import opened Crc

  /** The formats whose last 24 bits are address XOR parity. */
  predicate ParityOverlaid(df: nat)
  {
    df == 0 || df == 4 || df == 5 || df == 16 || df == 20 || df == 21
  }

  /** What `icao` reads: bits 1-32 for a short format, bits 1-88 and the tail for a long one. */
  predicate FrameFits(m: seq<Nibble>, df: nat)
  {
    |m| >= 8 && (df > 15 ==> |m| >= 22)
  }

  /** The last 24 bits of the frame: the parity field, with its address overlay. */
  function ParityField(m: seq<Nibble>): (p: nat)
    requires |m| >= 6
    ensures p == Field(m, 4 * |m| - 23, 4 * |m|) && p < Pow2(24)
  {
    RangeValue(m, 4 * |m| - 23, 4 * |m|)
  }

  /** The announced address, bits 9-32. */
  function AnnouncedField(m: seq<Nibble>): (a: nat)
    requires |m| >= 8
    ensures a == Field(m, 9, 32) && a < Pow2(24)
  {
    RangeValue(m, 9, 32)
  }

  /** The parity of the frame as a number. */
  function Parity(m: seq<Nibble>, df: nat): (c: nat)
    requires FrameFits(m, df)
  {
    GetCrc(m, df) as nat
  }

  /** The address before the zero test: parity field XOR parity, or bits 9-32. */
  function Address(m: seq<Nibble>, df: nat): nat
    requires FrameFits(m, df)
  {
    if ParityOverlaid(df) then Xor(ParityField(m), Parity(m, df)) else AnnouncedField(m)
  }

  /** `icao`: the address, or None when it comes out as 0. */
  function IcaoAddress(m: seq<Nibble>, df: nat): (r: Option<nat>)
    requires FrameFits(m, df)
    ensures r.Some? ==> r.value != 0
  {
    var icao := Address(m, df);
    if icao == 0 then None else Some(icao)
  }

  /** A recovered address fits 24 bits. */
  lemma IcaoFits(m: seq<Nibble>, df: nat)
    requires FrameFits(m, df)
    requires IcaoAddress(m, df).Some?
    ensures IcaoAddress(m, df).value < Pow2(24)
  {
    if ParityOverlaid(df) {
      var p, c := ParityField(m), Parity(m, df);
      ParityFits(m, df);
      XorFits(p, c, 24);
      assert Address(m, df) == Xor(p, c);
    } else {
      assert Address(m, df) == AnnouncedField(m);
    }
  }

  /** For the announcing formats the address is bits 9-32, and None exactly when they are 0. */
  lemma IcaoAnnounced(m: seq<Nibble>, df: nat)
    requires FrameFits(m, df) && !ParityOverlaid(df)
    ensures IcaoAddress(m, df).None? <==> Field(m, 9, 32) == 0
    ensures IcaoAddress(m, df).Some? ==> IcaoAddress(m, df).value == Field(m, 9, 32)
  {
  }

  /**
   * For the overlaid formats the address undoes the overlay: XOR with the
   * parity gives the parity field back; None exactly when the field is the bare parity.
   */
  lemma IcaoUndoesOverlay(m: seq<Nibble>, df: nat)
    requires FrameFits(m, df) && ParityOverlaid(df)
    ensures IcaoAddress(m, df).None? <==> ParityField(m) == Parity(m, df)
    ensures IcaoAddress(m, df).Some? ==> Xor(IcaoAddress(m, df).value, Parity(m, df)) == ParityField(m)
  {
    XorCancel(ParityField(m), Parity(m, df));
    XorZero(ParityField(m), Parity(m, df));
  }

  /** Overlaying a non-zero address on the parity and recovering it gives the address. */
  lemma IcaoRecoversOverlaid(m: seq<Nibble>, df: nat, address: nat)
    requires FrameFits(m, df) && ParityOverlaid(df)
    requires address != 0 && Field(m, 4 * |m| - 23, 4 * |m|) == Xor(address, Parity(m, df))
    ensures IcaoAddress(m, df) == Some(address)
  {
    XorCancel(address, Parity(m, df));
  }

  lemma ParityFits(m: seq<Nibble>, df: nat)
    requires FrameFits(m, df)
    ensures Parity(m, df) < Pow2(24)
  {
    ParityNumber(GetCrc(m, df));
    Pow2Small24();
  }

  lemma Pow2Small24()
    ensures Pow2(24) == 0x100_0000
  {
    Pow2Add(8, 16);
    Pow2Add(8, 8);
    Pow2Add(4, 4);
    Pow2Small();
  }

  /** `^` on `u32` values, bit by bit from the least significant end. */
  function Xor(a: nat, b: nat): (r: nat)
    decreases a + b
  {
    if a == 0 then b
    else if b == 0 then a
    else 2 * Xor(a / 2, b / 2) + (if a % 2 == b % 2 then 0 else 1)
  }

  /** XOR with the same value twice is the identity. */
  lemma {:induction false} XorCancel(a: nat, b: nat)
    ensures Xor(Xor(a, b), b) == a
    decreases a + b
  {
    if a != 0 && b != 0 {
      XorCancel(a / 2, b / 2);
      var x := Xor(a / 2, b / 2);
      var t := if a % 2 == b % 2 then 0 else 1;
      XorHalves(2 * x + t, b);
    } else if a == 0 {
      XorSelf(b);
    }
  }

  /** A value XOR itself is zero. */
  lemma {:induction false} XorSelf(a: nat)
    ensures Xor(a, a) == 0
    decreases a
  {
    if a != 0 {
      XorSelf(a / 2);
    }
  }

  /** XOR is zero exactly for equal values. */
  lemma {:induction false} XorZero(a: nat, b: nat)
    ensures Xor(a, b) == 0 <==> a == b
    decreases a + b
  {
    if a != 0 && b != 0 {
      XorZero(a / 2, b / 2);
    }
    if a == b {
      XorSelf(a);
    }
  }

  /** One step of the definition, taken whichever argument is zero. */
  lemma XorHalves(a: nat, b: nat)
    ensures Xor(a, b) == 2 * Xor(a / 2, b / 2) + (if a % 2 == b % 2 then 0 else 1)
  {
    if a == 0 {
      XorZeroLeft(b / 2);
    } else if b == 0 {
      XorZeroRight(a / 2);
    }
  }

  lemma XorZeroLeft(b: nat)
    ensures Xor(0, b) == b
  {
  }

  lemma {:induction false} XorZeroRight(a: nat)
    ensures Xor(a, 0) == a
  {
  }

  /** XOR of two n-bit values is an n-bit value. */
  lemma {:induction false} XorFits(a: nat, b: nat, n: nat)
    requires a < Pow2(n) && b < Pow2(n)
    ensures Xor(a, b) < Pow2(n)
    decreases n
  {
    if a != 0 && b != 0 {
      assert n > 0;
      XorFits(a / 2, b / 2, n - 1);
    }
  }

  /** `icao_wtc`: the wake category of the emitter category (set, code). */
  function IcaoWtc(vc: (nat, nat)): (r: Option<char>)
    ensures r.Some? ==> vc.0 == 4 && r.value in "LSMHJR"
  {
    match vc
    case (4, 1) => Some('L')
    case (4, 2) => Some('S')
    case (4, 3) => Some('M')
    case (4, 4) => Some('H')
    case (4, 5) => Some('J')
    case (4, 7) => Some('R')
    case _ => None
  }

  /** The emitter category each wake letter stands for. */
  function WtcCategory(c: char): (vc: (nat, nat))
    requires c in "LSMHJR"
  {
    if c == 'L' then (4, 1)
    else if c == 'S' then (4, 2)
    else if c == 'M' then (4, 3)
    else if c == 'H' then (4, 4)
    else if c == 'J' then (4, 5)
    else (4, 7)
  }

  /** Only set 4 codes 1-5 and 7 have a wake category, and it names them back. */
  lemma IcaoWtcTable(vc: (nat, nat))
    ensures IcaoWtc(vc).Some? <==> vc.0 == 4 && 1 <= vc.1 <= 7 && vc.1 != 6
    ensures IcaoWtc(vc).Some? ==> IcaoWtc(vc).value in "LSMHJR" && WtcCategory(IcaoWtc(vc).value) == vc
  {
  }

  /** Every wake letter is produced by its category. */
  lemma IcaoWtcOfCategory(c: char)
    requires c in "LSMHJR"
    ensures IcaoWtc(WtcCategory(c)) == Some(c)
  {
  }
}
