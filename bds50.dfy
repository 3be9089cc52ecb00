/**
 * The BDS 5,0 (track and turn report) extractor of src/adsb/bds/bds_5_0.rs:
 * the five fields of a reply whose status bits are set, whose values are
 * in range and whose ground speed and true airspeed differ by less than
 * 200 knots.
 */
module Bds50 {
  import opened Wrappers
  import opened Bits
  import opened Ehs50
  import opened CommB
  import Utils

  /** Roll angle, track angle, track angle rate, ground speed, true airspeed. */
  type TrackAndTurn = (int, nat, int, nat, nat)

  /**
   * `is_bds_5_0`: the five fields of a reply whose status bits are set, whose
   * values are in range and whose speeds agree within 200 knots.
   */
  function IsBds50(m: seq<Nibble>): (r: Option<TrackAndTurn>)
    requires |m| >= 22
    ensures r.Some? ==>
      r.value.0 == RollAngle(MsgBit(m, 34), Field(m, 35, 43)) &&
      r.value.1 == TrackAngle(MsgBit(m, 45), Field(m, 46, 55)) &&
      r.value.2 == TrackAngleRate(MsgBit(m, 68), Field(m, 69, 77)) &&
      r.value.3 == 2 * Field(m, 57, 66) && r.value.4 == 2 * Field(m, 79, 88)
  {
    // The five good fields and the five range tests are the cascade's BDS 5,0 test.
    if Is50(m) && Utils.AbsDiff(GroundSpeed50(m).value, TrueAirspeed50(m).value) < 200 then
      Some((RollAngle50(m).value, TrackAngle50(m).value, TrackAngleRate50(m).value,
            GroundSpeed50(m).value, TrueAirspeed50(m).value))
    else None
  }

  /** The extractor answers exactly when the cascade's BDS 5,0 test passes and the speeds are close. */
  lemma IsBds50IsTest(m: seq<Nibble>)
    requires |m| >= 22
    ensures IsBds50(m).Some? <==> Is50(m) && -100 < Field(m, 57, 66) - Field(m, 79, 88) < 100
  {
    if Is50(m) {
      SpeedGap(m);
    }
  }

  /** Both speeds are in steps of 2 knots, so they differ by less than 200 knots when their counts differ by less than 100. */
  lemma SpeedGap(m: seq<Nibble>)
    requires |m| >= 22
    requires MsgBit(m, 56) == 1 && MsgBit(m, 78) == 1
    ensures (Utils.AbsDiff(GroundSpeed50(m).value, TrueAirspeed50(m).value) < 200 <==>
       -100 < Field(m, 57, 66) - Field(m, 79, 88) < 100)
  {
  }

  /** The range tests never refuse: the extractor answers exactly for good fields and close speeds. */
  lemma IsBds50Accepts(m: seq<Nibble>)
    requires |m| >= 22
    ensures IsBds50(m).Some? <==>
      (Goodflags(m, 33, 34, 43) && Goodflags(m, 44, 45, 55) && Goodflags(m, 56, 57, 66) &&
       Goodflags(m, 67, 68, 77) && Goodflags(m, 78, 79, 88) &&
       -100 < Field(m, 57, 66) - Field(m, 79, 88) < 100)
  {
    IsBds50IsTest(m);
    Is50IsGoodflags(m);
  }

  /** Every reply the extractor accepts, the cascade takes for BDS 5,0 unless an earlier test claims it. */
  lemma IsBds50Classified(m: seq<Nibble>)
    requires |m| >= 22 && IsBds50(m).Some?
    ensures Bds(m) in {(1, 0), (2, 0), (3, 0), (1, 7), (4, 0), (5, 0)}
  {
  }
}
