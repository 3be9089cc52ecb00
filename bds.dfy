/**
 * The Comm-B classifier (src/adsb/bds/mod.rs): which register a DF 20/21
 * reply carries, decided by a fixed cascade of tests on the 56-bit MB field
 * (bits 33-88), the first test that passes naming the register.  Also the
 * short classifier the aircraft state uses (src/decoder/bds/mod.rs), which
 * only recognises the registers announced by their first byte.
 */
module CommB {
  import opened Wrappers
  import opened Bits
  import opened Calc
  import opened Ehs50
  import opened Ehs60

  /**
   * `goodflags`: the status bit is set and the value it guards is non-zero.
   * An empty span, or no status bit, is never good.
   */
  function Goodflags(m: seq<Nibble>, flag: nat, sb: nat, eb: nat): (r: bool)
    requires 1 <= sb && 1 <= eb
    requires sb <= eb ==> eb <= 4 * |m| && flag <= 4 * |m|
    ensures r <==> sb <= eb && flag != 0 && MsgBit(m, flag) == 1 && Field(m, sb, eb) % U32 != 0
    ensures sb <= eb && eb - sb < 32 ==>
      (r <==> flag != 0 && MsgBit(m, flag) == 1 && Field(m, sb, eb) != 0)
  {
    GoodflagsReads(m, flag, sb, eb);
    match FlagAndRangeValue(m, flag, sb, eb)
    case Some((f, v)) => if f == 0 then false else v != 0
    case None => false
  }

  lemma GoodflagsReads(m: seq<Nibble>, flag: nat, sb: nat, eb: nat)
    requires 1 <= sb && 1 <= eb
    requires sb <= eb ==> eb <= 4 * |m| && flag <= 4 * |m|
    ensures sb <= eb ==>
      FlagAndRangeValue(m, flag, sb, eb).Some? &&
      FlagAndRangeValue(m, flag, sb, eb).value.1 == Field(m, sb, eb) % U32
    ensures sb <= eb && eb - sb < 32 ==> FlagAndRangeValue(m, flag, sb, eb).value.1 == Field(m, sb, eb)
  {
    if sb <= eb {
      FlagAndRangeValueReadsField(m, flag, sb, eb);
      if eb - sb < 32 {
        FlagAndRangeValueNarrow(m, flag, sb, eb);
      }
    }
  }

  /** BDS 1,0 (data link capability): first byte 0x10 and the reserved bits 42-46 clear. */
  predicate Is10(m: seq<Nibble>)
    requires |m| >= 22
  {
    m[8] == 1 && m[9] == 0 && m[10] % 8 == 0 && m[11] / 4 == 0
  }

  /** BDS 2,0 (aircraft identification): first byte 0x20. */
  predicate Is20(m: seq<Nibble>)
    requires |m| >= 22
  {
    m[8] == 2 && m[9] == 0
  }

  /**
   * BDS 3,0 (ACAS resolution advisory) as written: first byte 0x30, nibble 7
   * not 0b11.. and the 7-bit value assembled from nibbles 3-5 below 48.
   */
  predicate Is30(m: seq<Nibble>)
    requires |m| >= 22
  {
    m[8] == 3 && m[9] == 0 && m[7] / 4 != 3 && (m[3] as int % 2) * 64 + m[4] as int * 4 + m[5] as int / 4 < 48
  }

  /** BDS 1,7 (common usage capability): nibbles 15-18 all zero. */
  predicate Is17(m: seq<Nibble>)
    requires |m| >= 22
  {
    forall k :: 15 <= k < 19 ==> m[k] == 0
  }

  /** BDS 4,0 (selected vertical intention): three good fields and two reserved ones clear. */
  predicate Is40(m: seq<Nibble>)
    requires |m| >= 22
  {
    Goodflags(m, 33, 34, 45) && Goodflags(m, 46, 47, 58) && Goodflags(m, 59, 60, 71) &&
    !Goodflags(m, 33, 72, 79) && !Goodflags(m, 33, 84, 85)
  }

  /** BDS 5,0 (track and turn): five good fields whose decoded values are plausible. */
  predicate Is50(m: seq<Nibble>)
    requires |m| >= 22
  {
    Goodflags(m, 33, 34, 43) && Goodflags(m, 44, 45, 55) && Goodflags(m, 56, 57, 66) &&
    Goodflags(m, 67, 68, 77) && Goodflags(m, 78, 79, 88) &&
    (var roll := RollAngle50(m); roll.Some? && -90 <= roll.value <= 90) &&
    (var track := TrackAngle50(m); track.Some? && track.value <= 360) &&
    (var rate := TrackAngleRate50(m); rate.Some? && -16 <= rate.value <= 16) &&
    (var gs := GroundSpeed50(m); gs.Some? && gs.value <= 2046) &&
    (var tas := TrueAirspeed50(m); tas.Some? && tas.value <= 2046)
  }

  /**
   * BDS 6,0 (heading and speed): five good fields whose decoded values are
   * plausible.  The Mach test `count * 0.004 <= 4.092` in `f64` fails only for
   * the largest count, 1023, as 1023 * 0.004 rounds above 4.092.
   */
  predicate Is60(m: seq<Nibble>)
    requires |m| >= 22
  {
    Goodflags(m, 33, 34, 44) && Goodflags(m, 45, 46, 55) && Goodflags(m, 56, 57, 66) &&
    Goodflags(m, 67, 68, 77) && Goodflags(m, 78, 79, 88) &&
    (var hdg := MagneticHeading60(m); hdg.Some? && hdg.value <= 180) &&
    (var ias := IndicatedAirspeed60(m); ias.Some? && ias.value <= 1023) &&
    (var mach := MachCount60(m); mach.Some? && mach.value <= 1022) &&
    (var baro := BaroAltitudeRate60(m); baro.Some? && -16384 <= baro.value <= 16384) &&
    (var ivv := InternalVerticalVelocity60(m); ivv.Some? && -16384 <= ivv.value <= 16384)
  }

  /** BDS 4,4 (meteorological routine report): five good fields. */
  predicate Is44(m: seq<Nibble>)
    requires |m| >= 22
  {
    Goodflags(m, 37, 38, 55) && Goodflags(m, 37, 57, 66) && Goodflags(m, 67, 68, 78) &&
    Goodflags(m, 79, 80, 81) && Goodflags(m, 82, 83, 88)
  }

  /** BDS 4,5 (meteorological hazard report): eight good fields and a clear reserved one. */
  predicate Is45(m: seq<Nibble>)
    requires |m| >= 22
  {
    Goodflags(m, 33, 34, 35) && Goodflags(m, 36, 37, 38) && Goodflags(m, 39, 40, 41) &&
    Goodflags(m, 42, 43, 44) && Goodflags(m, 45, 46, 47) && Goodflags(m, 48, 49, 58) &&
    Goodflags(m, 59, 60, 60) && Goodflags(m, 71, 72, 83) && !Goodflags(m, 33, 84, 88)
  }

  /** `bds`: the cascade, the first test that passes naming the register, else (0,0). */
  function Bds(m: seq<Nibble>): (r: (nat, nat))
    requires |m| >= 22
    ensures r in {(1, 0), (2, 0), (3, 0), (1, 7), (4, 0), (5, 0), (6, 0), (4, 4), (4, 5), (0, 0)}
  {
    if Is10(m) then (1, 0)
    else if Is20(m) then (2, 0)
    else if Is30(m) then (3, 0)
    else if Is17(m) then (1, 7)
    else if Is40(m) then (4, 0)
    else if Is50(m) then (5, 0)
    else if Is60(m) then (6, 0)
    else if Is44(m) then (4, 4)
    else if Is45(m) then (4, 5)
    else (0, 0)
  }

  /** The cascade is the first match of its tests taken in priority order. */
  lemma BdsIsFirstMatch(m: seq<Nibble>)
    requires |m| >= 22
    ensures Bds(m) == FirstMatch(Tests(m))
  {
    FirstOfNine(Tests(m));
  }

  /** The tests of the cascade with the register each names, in priority order. */
  function Tests(m: seq<Nibble>): (t: seq<((nat, nat), bool)>)
    requires |m| >= 22
  {
    [((1, 0), Is10(m)), ((2, 0), Is20(m)), ((3, 0), Is30(m)), ((1, 7), Is17(m)),
     ((4, 0), Is40(m)), ((5, 0), Is50(m)), ((6, 0), Is60(m)), ((4, 4), Is44(m)),
     ((4, 5), Is45(m))]
  }

  /** The register of the first test in the list that passes, (0,0) when none does. */
  function FirstMatch(tests: seq<((nat, nat), bool)>): (nat, nat)
    decreases |tests|
  {
    if tests == [] then (0, 0)
    else if tests[0].1 then tests[0].0
    else FirstMatch(tests[1..])
  }

  /** A later test decides only when every earlier one has failed. */
  lemma {:induction false} FirstMatchIsFirst(tests: seq<((nat, nat), bool)>, i: nat)
    requires i < |tests| && tests[i].1
    requires forall k :: 0 <= k < i ==> !tests[k].1
    ensures FirstMatch(tests) == tests[i].0
    decreases i
  {
    if i > 0 {
      FirstMatchIsFirst(tests[1..], i - 1);
    }
  }

  lemma {:induction false} FirstMatchNone(tests: seq<((nat, nat), bool)>)
    requires forall k :: 0 <= k < |tests| ==> !tests[k].1
    ensures FirstMatch(tests) == (0, 0)
    decreases |tests|
  {
    if tests != [] {
      FirstMatchNone(tests[1..]);
    }
  }

  /** The first match of nine tests, spelled out. */
  lemma FirstOfNine(t: seq<((nat, nat), bool)>)
    requires |t| == 9
    ensures FirstMatch(t) ==
      if t[0].1 then t[0].0
      else if t[1].1 then t[1].0
      else if t[2].1 then t[2].0
      else if t[3].1 then t[3].0
      else if t[4].1 then t[4].0
      else if t[5].1 then t[5].0
      else if t[6].1 then t[6].0
      else if t[7].1 then t[7].0
      else if t[8].1 then t[8].0
      else (0, 0)
  {
    if t[0].1 { FirstMatchIsFirst(t, 0); }
    else if t[1].1 { FirstMatchIsFirst(t, 1); }
    else if t[2].1 { FirstMatchIsFirst(t, 2); }
    else if t[3].1 { FirstMatchIsFirst(t, 3); }
    else if t[4].1 { FirstMatchIsFirst(t, 4); }
    else if t[5].1 { FirstMatchIsFirst(t, 5); }
    else if t[6].1 { FirstMatchIsFirst(t, 6); }
    else if t[7].1 { FirstMatchIsFirst(t, 7); }
    else if t[8].1 { FirstMatchIsFirst(t, 8); }
    else { FirstMatchNone(t); }
  }

  /** Any reply whose first byte is 0x20 is taken for an identification, whatever else it holds. */
  lemma Bds20Always(m: seq<Nibble>)
    requires |m| >= 22 && m[8] == 2 && m[9] == 0
    ensures Bds(m) == (2, 0)
  {
  }

  /** Four zero nibbles 15-18 name BDS 1,7 before any of the status-bit tests is tried. */
  lemma Bds17BeforeStatusTests(m: seq<Nibble>)
    requires |m| >= 22 && m[15] == 0 && m[16] == 0 && m[17] == 0 && m[18] == 0
    ensures Bds(m) in {(1, 0), (2, 0), (3, 0), (1, 7)}
  {
    assert Is17(m);
  }

  /**
   * The range tests of BDS 5,0 never refuse a reply: with the five status
   * bits set, every decoded value is in range.
   */
  lemma Is50IsGoodflags(m: seq<Nibble>)
    requires |m| >= 22
    ensures Is50(m) <==>
      (Goodflags(m, 33, 34, 43) && Goodflags(m, 44, 45, 55) &&
       Goodflags(m, 56, 57, 66) && Goodflags(m, 67, 68, 77) && Goodflags(m, 78, 79, 88))
  {
  }

  /**
   * The BDS 6,0 test refuses a heading beyond 180 degrees (the heading is
   * decoded in [0, 360) but tested against [-180, 180]) and the largest Mach
   * count; the other range tests never refuse.
   */
  lemma Is60Refuses(m: seq<Nibble>)
    requires |m| >= 22
    ensures Is60(m) <==>
      (Goodflags(m, 33, 34, 44) && Goodflags(m, 45, 46, 55) &&
       Goodflags(m, 56, 57, 66) && Goodflags(m, 67, 68, 77) && Goodflags(m, 78, 79, 88) &&
       TrackAngle(MsgBit(m, 34), Field(m, 35, 44)) <= 180 && Field(m, 57, 66) <= 1022)
  {
  }

  /** The cascade's BDS 3,0 test reads header bits 16-22 and 29-30, not MB bits 48-54 and 61-62. */
  lemma Is30ReadsHeader(m: seq<Nibble>)
    requires |m| >= 22
    ensures Is30(m) <==> m[8] == 3 && m[9] == 0 && Field(m, 29, 30) != 3 && Field(m, 16, 22) < 48
  {
    HeaderBits(m);
  }

  lemma HeaderBits(m: seq<Nibble>)
    requires |m| >= 22
    ensures Field(m, 29, 30) == m[7] / 4
    ensures Field(m, 16, 22) == (m[3] as int % 2) * 64 + m[4] as int * 4 + m[5] as int / 4
  {
    Pow2Small();
    FieldNibbleTail(m, 7, 1);
    FieldSplit(m, 16, 20, 22);
    FieldNextNibble(m, 16, 4);
    FieldNibbleHead(m, 3, 3);
    FieldNibbleTail(m, 5, 1);
    assert Field(m, 16, 20) == (m[3] as int % 2) * 16 + m[4];
  }

  /**
   * A resolution advisory whose header bits 17-20 are all set is never
   * classified as BDS 3,0 by the cascade, though its MB field passes the
   * test on bits 61-62 and 48-54 that the short classifier applies.
   */
  lemma Is30MissesAdvisory(m: seq<Nibble>)
    requires |m| >= 22 && m[8] == 3 && m[9] == 0 && m[4] == 15
    requires m[11] == 0 && m[12] == 0 && m[13] == 0 && m[15] == 0
    ensures !Is30(m) && Bds(m) != (3, 0)
    ensures PrefixBds(m) == (3, 0)
  {
    Pow2Small();
    FieldSplit(m, 48, 52, 54);
    FieldNextNibble(m, 48, 12);
    FieldNibbleHead(m, 11, 3);
    FieldNibbleTail(m, 13, 1);
    assert Field(m, 48, 54) == 0;
  }

  /**
   * BDS 3,0 tested on the MB field, as the short classifier does: bits 61-62
   * not both set and the 7-bit value of bits 48-54 below 48.
   */
  predicate Is30Mb(m: seq<Nibble>)
    requires |m| >= 22
  {
    m[8] == 3 && m[9] == 0 && m[15] / 4 != 3 && RangeValue(m, 48, 54) < 48
  }

  /**
   * `bds` of the aircraft-state decoder: only the registers announced by their
   * first byte, BDS 1,0, 2,0 and 3,0, else (0,0).
   */
  function PrefixBds(m: seq<Nibble>): (r: (nat, nat))
    requires |m| >= 22
    ensures r in {(1, 0), (2, 0), (3, 0), (0, 0)}
    ensures r == (1, 0) <==> Field(m, 33, 40) == 0x10 && Field(m, 42, 46) == 0
    ensures r == (2, 0) <==> Field(m, 33, 40) == 0x20
    ensures r == (3, 0) <==> Field(m, 33, 40) == 0x30 && Field(m, 61, 62) != 3 && Field(m, 48, 54) < 48
  {
    PrefixBits(m);
    if Is10(m) then (1, 0)
    else if Is20(m) then (2, 0)
    else if Is30Mb(m) then (3, 0)
    else (0, 0)
  }

  lemma PrefixBits(m: seq<Nibble>)
    requires |m| >= 22
    ensures Field(m, 33, 40) == m[8] as int * 16 + m[9]
    ensures Field(m, 42, 46) == (m[10] as int % 8) * 4 + m[11] as int / 4
    ensures Field(m, 61, 62) == m[15] / 4
  {
    Pow2Small();
    FieldNextNibble(m, 33, 9);
    WholeNibble(m, 8);
    FieldNibbleHead(m, 9, 1);
    FieldSplit(m, 42, 44, 46);
    FieldNibbleHead(m, 10, 1);
    FieldNibbleTail(m, 11, 1);
    FieldNibbleTail(m, 15, 1);
  }

  /** The two classifiers agree on BDS 1,0 and 2,0. */
  lemma PrefixAgrees(m: seq<Nibble>)
    requires |m| >= 22
    ensures Bds(m) == (1, 0) <==> PrefixBds(m) == (1, 0)
    ensures Bds(m) == (2, 0) <==> PrefixBds(m) == (2, 0)
  {
  }

  /**
   * The published vector "8D40621D58C382D690C8AC2863A7" (an airborne position
   * squitter) fits no register: its first MB byte is 0x58, nibble 15 is 6, and
   * the status bits 33 and 67 are clear.
   */
  lemma BdsVector(m: seq<Nibble>)
    requires |m| >= 22 && m[8] == 5 && m[9] == 8 && m[15] == 6 && m[16] == 9
    ensures Bds(m) == (0, 0)
  {
    MsgBitInNibble(m, 8, 0);
    MsgBitInNibble(m, 16, 2);
    Pow2Small();
    NoRegister(m);
  }

  lemma NoRegister(m: seq<Nibble>)
    requires |m| >= 22 && m[8] == 5 && m[15] == 6 && MsgBit(m, 33) == 0 && MsgBit(m, 67) == 0
    ensures Bds(m) == (0, 0)
  {
    assert !Is17(m);
  }
}
