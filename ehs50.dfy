/**
 * The field decoders of the Comm-B track and turn report, BDS 5,0
 * (src/adsb/ehs/bds_5_0.rs): each field has a status bit, and the angles
 * and the rate a sign bit before a two's complement magnitude.
 */
module Ehs50 {
  import opened Wrappers
  import opened Bits
  import opened Calc

  /** 1 for a set sign bit (any non-zero value), else 0. */
  function SignOf(sign: nat): (s: nat)
    ensures s <= 1 && (s == 1 <==> sign != 0)
  {
    if sign == 0 then 0 else 1
  }

  /**
   * `roll_angle`: `value * 45 / 256`, less 90 when the sign is set.  This is
   * the two's complement angle of 45/256 degrees a step, rounded down.
   */
  function RollAngle(sign: nat, value: nat): (r: int)
    ensures r * 256 <= (value - 512 * SignOf(sign)) * 45 < (r + 1) * 256
    ensures value < 512 ==> -90 <= r <= 89
  {
    var v := value * 45 / 256;
    if sign == 0 then v else v - 90
  }

  /** The published vectors of `roll_angle`. */
  lemma RollAngleVectors()
    ensures RollAngle(0, 511) == 89 && RollAngle(0, 1) == 0
    ensures RollAngle(1, 1) == -90 && RollAngle(1, 511) == -1
  {
  }

  /** `roll_angle_5_0`: status bit 33, sign bit 34, magnitude bits 35-43. */
  function RollAngle50(m: seq<Nibble>): (r: Option<int>)
    requires |m| >= 11
    ensures r.Some? <==> MsgBit(m, 33) == 1
    ensures r.Some? ==> r.value == RollAngle(MsgBit(m, 34), Field(m, 35, 43))
    ensures r.Some? ==> -90 <= r.value <= 89
  {
    FlagAndRangeValueNarrow(m, 33, 34, 43);
    FlagAndRangeValueNarrow(m, 34, 35, 43);
    Pow2Table();
    if FlagAndRangeValue(m, 33, 34, 43).value.0 == 0 then None
    else
      var (sign, value) := FlagAndRangeValue(m, 34, 35, 43).value;
      Some(RollAngle(sign, value))
  }

  /**
   * `track_angle`: `(value * 90) >> 9`, plus 180 when the sign is set: the
   * angle of 90/512 degrees a step over a full turn, rounded down.
   */
  function TrackAngle(sign: nat, value: nat): (r: nat)
    ensures r * 512 <= (value + 1024 * SignOf(sign)) * 90 < (r + 1) * 512
    ensures value < 1024 ==> r < 360
  {
    var angle := (value * 90) / 512;
    if sign == 0 then angle else angle + 180
  }

  /** `track_angle_5_0`: status bit 44, sign bit 45, magnitude bits 46-55. */
  function TrackAngle50(m: seq<Nibble>): (r: Option<nat>)
    requires |m| >= 14
    ensures r.Some? <==> MsgBit(m, 44) == 1
    ensures r.Some? ==> r.value == TrackAngle(MsgBit(m, 45), Field(m, 46, 55)) && r.value < 360
  {
    FlagAndRangeValueNarrow(m, 44, 45, 55);
    FlagAndRangeValueNarrow(m, 45, 46, 55);
    Pow2Table();
    if FlagAndRangeValue(m, 44, 45, 55).value.0 == 0 then None
    else
      var (sign, value) := FlagAndRangeValue(m, 45, 46, 55).value;
      Some(TrackAngle(sign, value))
  }

  /**
   * `track_angle_rate`: `(value << 3) >> 8`, less 16 when the sign is set: the
   * two's complement rate of 1/32 degree per second a step, rounded down.
   */
  function TrackAngleRate(sign: nat, value: nat): (r: int)
    ensures r * 256 <= (value - 512 * SignOf(sign)) * 8 < (r + 1) * 256
    ensures value < 512 ==> -16 <= r <= 15
  {
    var angle := (value * 8) / 256;
    if sign == 0 then angle else angle - 16
  }

  /** `track_angle_rate_5_0`: status bit 67, sign bit 68, magnitude bits 69-77. */
  function TrackAngleRate50(m: seq<Nibble>): (r: Option<int>)
    requires |m| >= 20
    ensures r.Some? <==> MsgBit(m, 67) == 1
    ensures r.Some? ==> r.value == TrackAngleRate(MsgBit(m, 68), Field(m, 69, 77))
    ensures r.Some? ==> -16 <= r.value <= 15
  {
    FlagAndRangeValueNarrow(m, 67, 68, 77);
    FlagAndRangeValueNarrow(m, 68, 69, 77);
    Pow2Table();
    if FlagAndRangeValue(m, 67, 68, 77).value.0 == 0 then None
    else
      var (sign, value) := FlagAndRangeValue(m, 68, 69, 77).value;
      Some(TrackAngleRate(sign, value))
  }

  /** `ground_speed_5_0`: status bit 56, then bits 57-66 in steps of 2 knots. */
  function GroundSpeed50(m: seq<Nibble>): (r: Option<nat>)
    requires |m| >= 17
    ensures r.Some? <==> MsgBit(m, 56) == 1
    ensures r.Some? ==> r.value == 2 * Field(m, 57, 66) && r.value <= 2046
  {
    FlagAndRangeValueNarrow(m, 56, 57, 66);
    Pow2Table();
    var (status, value) := FlagAndRangeValue(m, 56, 57, 66).value;
    if status == 0 then None else Some(value * 2)
  }

  /** `true_airspeed_5_0`: status bit 78, then bits 79-88 in steps of 2 knots. */
  function TrueAirspeed50(m: seq<Nibble>): (r: Option<nat>)
    requires |m| >= 22
    ensures r.Some? <==> MsgBit(m, 78) == 1
    ensures r.Some? ==> r.value == 2 * Field(m, 79, 88) && r.value <= 2046
  {
    FlagAndRangeValueNarrow(m, 78, 79, 88);
    Pow2Table();
    var (status, value) := FlagAndRangeValue(m, 78, 79, 88).value;
    if status == 0 then None else Some(value * 2)
  }
}
