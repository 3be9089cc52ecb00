/**
 * The address test vectors of src/adsb/icao.rs: an extended squitter
 * announcing 40621D, and a Comm-B reply whose parity field carries 71BC00.
 */
module IcaoVectors {
  import opened Wrappers
  import opened Bits
  import opened Crc
  import opened CrcVectors
  import opened Icao

  /** "8D40621D58C382D690C8AC2863A7", DF 17: the address 4219421 (40621D) is read from bits 9-32. */
  lemma IcaoVector1(m: seq<Nibble>)
    requires |m| == 28 && Field(m, 1, 32) == 0x8D40_621D
    ensures IcaoAddress(m, 17) == Some(4219421)
  {
    Vector1Address(m);
    IcaoAnnounced(m, 17);
  }

  lemma Vector1Address(m: seq<Nibble>)
    requires |m| >= 8 && Field(m, 1, 32) == 0x8D40_621D
    ensures Field(m, 9, 32) == 0x40_621D
  {
    FieldSplit(m, 1, 8, 32);
    FieldBound(m, 9, 32);
    Pow2Small24();
    LowPart(0x8D40_621D, Field(m, 1, 8), Field(m, 9, 32));
  }

  lemma LowPart(x: nat, hi: nat, lo: nat)
    requires x == hi * 0x100_0000 + lo && lo < 0x100_0000
    ensures lo == x % 0x100_0000
  {
  }

  /** "A0001838300000000000007ADA59", DF 20: 7ADA59 XOR the parity 747097 is 7453696 (71BC00). */
  lemma IcaoVector2(m: seq<Nibble>)
    requires |m| == 28
    requires Field(m, 1, 32) == 0xA000_1838 && Field(m, 33, 64) == 0x3000_0000 && Field(m, 65, 88) == 0x000000
    requires Field(m, 89, 112) == 0x7A_DA59
    ensures IcaoAddress(m, 20) == Some(7453696)
  {
    Vector2Parity(m);
    Vector2Xor();
    assert Address(m, 20) == Xor(ParityField(m), Parity(m, 20));
  }

  lemma Vector2Parity(m: seq<Nibble>)
    requires |m| == 28
    requires Field(m, 1, 32) == 0xA000_1838 && Field(m, 33, 64) == 0x3000_0000 && Field(m, 65, 88) == 0x000000
    ensures Parity(m, 20) == 747097
  {
    Crc112Vector2(m);
  }

  /** The XOR worked from the top bits down. */
  lemma Vector2Xor()
    ensures Xor(0x7A_DA59, 747097) == 7453696
  {
    assert Xor(7, 0) == 7;
    assert Xor(15, 1) == 14;
    assert Xor(30, 2) == 28;
    assert Xor(61, 5) == 56;
    assert Xor(122, 11) == 113;
    assert Xor(245, 22) == 227;
    assert Xor(491, 45) == 454;
    assert Xor(982, 91) == 909;
    assert Xor(1965, 182) == 1819;
    assert Xor(3931, 364) == 3639;
    assert Xor(7862, 729) == 7279;
    assert Xor(15725, 1459) == 14558;
    assert Xor(31450, 2918) == 29116;
    assert Xor(62900, 5836) == 58232;
    assert Xor(125801, 11673) == 116464;
    assert Xor(251602, 23346) == 232928;
    assert Xor(503205, 46693) == 465856;
    assert Xor(1006411, 93387) == 931712;
    assert Xor(2012822, 186774) == 1863424;
    assert Xor(4025644, 373548) == 3726848;
    assert Xor(8051289, 747097) == 7453696;
  }
}
