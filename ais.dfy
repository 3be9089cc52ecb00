/**
 * The aircraft identification (callsign) of an identification squitter or a
 * BDS 2,0 reply (src/adsb/ais.rs): eight 6-bit IA5 codes in bits 41-88,
 * mapped to characters with the spaces dropped.
 */
module Ais {
  import opened Wrappers
  import opened Bits

  /**
   * `ia5`: codes 48-63 are the digits and the punctuation that share their
   * ASCII value; codes 1-26 are the letters 'A'-'Z' (`ch | 64`, which adds 64
   * as ch < 64); everything else becomes a space.
   */
  function Ia5(c: nat): (r: char)
    ensures 48 <= c < 64 ==> r as int == c
    ensures 1 <= c <= 26 ==> 'A' <= r <= 'Z' && r as int - 64 == c
    ensures r == ' ' <==> !(1 <= c <= 26 || 48 <= c < 64)
  {
    if c / 16 == 3 then c as char
    else if 0 < c < 27 then (c + 64) as char
    else ' '
  }

  /** The eight 6-bit codes, each packed across a nibble boundary of nibbles 10-21. */
  function Codes(m: seq<Nibble>): (r: seq<nat>)
    requires |m| >= 22
    ensures |r| == 8
    ensures forall k :: 0 <= k < 8 ==> r[k] < 64
  {
    [m[10] as int * 4 + m[11] as int / 4, (m[11] as int % 4) * 16 + m[12],
     m[13] as int * 4 + m[14] as int / 4, (m[14] as int % 4) * 16 + m[15],
     m[16] as int * 4 + m[17] as int / 4, (m[17] as int % 4) * 16 + m[18],
     m[19] as int * 4 + m[20] as int / 4, (m[20] as int % 4) * 16 + m[21]]
  }

  /** Code k is bits 41+6k..46+6k of the message. */
  lemma CodesReadBits(m: seq<Nibble>, k: nat)
    requires |m| >= 22 && k < 8
    ensures Codes(m)[k] == Field(m, 41 + 6 * k, 46 + 6 * k)
  {
    var i := 10 + 3 * (k / 2);
    if k % 2 == 0 {
      assert 41 + 6 * k == 4 * i + 1 && 46 + 6 * k == 4 * i + 6;
      HighCode(m, i);
    } else {
      assert 41 + 6 * k == 4 * i + 7 && 46 + 6 * k == 4 * i + 12;
      LowCode(m, i);
    }
  }

  /** All of nibble i, then the top two bits of nibble i+1. */
  lemma HighCode(m: seq<Nibble>, i: nat)
    requires i + 1 < |m|
    ensures Field(m, 4 * i + 1, 4 * i + 6) == m[i] as int * 4 + m[i + 1] as int / 4
  {
    Pow2Small();
    FieldSplit(m, 4 * i + 1, 4 * i + 4, 4 * i + 6);
    WholeNibble(m, i);
    FieldNibbleTail(m, i + 1, 1);
    assert 4 * (i + 1) + 1 + 1 == 4 * i + 6;
  }

  /** The low two bits of nibble i+1, then all of nibble i+2. */
  lemma LowCode(m: seq<Nibble>, i: nat)
    requires i + 2 < |m|
    ensures Field(m, 4 * i + 7, 4 * i + 12) == (m[i + 1] as int % 4) * 16 + m[i + 2]
  {
    Pow2Small();
    FieldNextNibble(m, 4 * i + 7, i + 2);
    FieldNibbleHead(m, i + 1, 2);
    assert 4 * (i + 1) + 1 + 2 == 4 * i + 7 && 4 * (i + 2) == 4 * i + 8;
  }

  /** The characters of s other than the space, in order. */
  function DropSpaces(s: seq<char>): (r: seq<char>)
    ensures |r| <= |s|
    ensures ' ' !in r
    ensures forall c :: c in r ==> c in s
    ensures ' ' !in s ==> r == s
    decreases |s|
  {
    if s == [] then []
    else if s[0] == ' ' then DropSpaces(s[1..])
    else [s[0]] + DropSpaces(s[1..])
  }

  /** The characters of the eight codes, spaces included. */
  function Characters(m: seq<Nibble>): (r: seq<char>)
    requires |m| >= 22
    ensures |r| == 8
    ensures forall k :: 0 <= k < 8 ==> r[k] == Ia5(Codes(m)[k])
  {
    var c := Codes(m);
    [Ia5(c[0]), Ia5(c[1]), Ia5(c[2]), Ia5(c[3]), Ia5(c[4]), Ia5(c[5]), Ia5(c[6]), Ia5(c[7])]
  }

  /**
   * `ais`: always `Some`; at most eight characters, none a space, each a
   * letter, a digit or another character of IA5 codes 48-63.
   */
  function Ais(m: seq<Nibble>): (r: Option<seq<char>>)
    requires |m| >= 22
    ensures r.Some?
    ensures |r.value| <= 8 && ' ' !in r.value
    ensures forall c :: c in r.value ==> 'A' <= c <= 'Z' || '0' <= c <= '?'
    ensures r.value == DropSpaces(Characters(m))
  {
    var s := Characters(m);
    forall c | c in DropSpaces(s)
      ensures 'A' <= c <= 'Z' || '0' <= c <= '?'
    {
      var k :| 0 <= k < 8 && s[k] == c;
      CharacterRange(Codes(m)[k], c);
    }
    Some(DropSpaces(s))
  }

  lemma CharacterRange(code: nat, c: char)
    requires c == Ia5(code) && c != ' '
    ensures 'A' <= c <= 'Z' || '0' <= c <= '?'
  {
  }

  /** "8DAAAA9225041331DF3820CAC7A4" reads "AAL173". */
  lemma AisVector1(m: seq<Nibble>)
    requires |m| >= 22
    requires m[10] == 0 && m[11] == 4 && m[12] == 1 && m[13] == 3 && m[14] == 3 && m[15] == 1
    requires m[16] == 13 && m[17] == 15 && m[18] == 3 && m[19] == 8 && m[20] == 2 && m[21] == 0
    ensures Ais(m) == Some("AAL173")
  {
    assert Codes(m) == [1, 1, 12, 49, 55, 51, 32, 32];
    var s := Characters(m);
    assert s == "AAL173" + "  ";
    SpacesAtEnd("AAL173", "  ");
  }

  /** "8D406F7C250815F2CB4560C85DCA" reads "BAW224U". */
  lemma AisVector2(m: seq<Nibble>)
    requires |m| >= 22
    requires m[10] == 0 && m[11] == 8 && m[12] == 1 && m[13] == 5 && m[14] == 15 && m[15] == 2
    requires m[16] == 12 && m[17] == 11 && m[18] == 4 && m[19] == 5 && m[20] == 6 && m[21] == 0
    ensures Ais(m) == Some("BAW224U")
  {
    assert Codes(m) == [2, 1, 23, 50, 50, 52, 21, 32];
    var s := Characters(m);
    assert s == "BAW224U" + " ";
    SpacesAtEnd("BAW224U", " ");
  }

  /** Trailing spaces are dropped and nothing else is. */
  lemma {:induction false} SpacesAtEnd(w: seq<char>, t: seq<char>)
    requires ' ' !in w && forall c :: c in t ==> c == ' '
    ensures DropSpaces(w + t) == w
    decreases |w|
  {
    if w == [] {
      TrailingSpaces(t);
      assert w + t == t;
    } else {
      assert (w + t)[1..] == w[1..] + t;
      SpacesAtEnd(w[1..], t);
    }
  }

  lemma {:induction false} TrailingSpaces(t: seq<char>)
    requires forall c :: c in t ==> c == ' '
    ensures DropSpaces(t) == []
    decreases |t|
  {
    if t != [] {
      assert t[0] in t;
      assert forall c :: c in t[1..] ==> c in t;
      TrailingSpaces(t[1..]);
    }
  }
}
