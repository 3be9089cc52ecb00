/**
 * The field decoders of the Comm-B heading and speed report, BDS 6,0
 * (src/adsb/ehs/bds_6_0.rs).  Each field has a status bit; the heading and
 * the two vertical rates have a sign bit before the magnitude.
 */
module Ehs60 {
  import opened Wrappers
  import opened Bits
  import opened Calc
  import Ehs50

  /**
   * `magnetic_heading_6_0`: status bit 33, sign bit 34, magnitude bits 35-44;
   * `magnetic_heading` is the arithmetic of `track_angle`, so a heading lies
   * in [0, 360).
   */
  function MagneticHeading60(m: seq<Nibble>): (r: Option<nat>)
    requires |m| >= 11
    ensures r.Some? <==> MsgBit(m, 33) == 1
    ensures r.Some? ==> r.value == Ehs50.TrackAngle(MsgBit(m, 34), Field(m, 35, 44)) && r.value < 360
  {
    FlagAndRangeValueNarrow(m, 33, 34, 44);
    FlagAndRangeValueNarrow(m, 34, 35, 44);
    Pow2Table();
    if FlagAndRangeValue(m, 33, 34, 44).value.0 == 0 then None
    else
      var (sign, value) := FlagAndRangeValue(m, 34, 35, 44).value;
      Some(Ehs50.TrackAngle(sign, value))
  }

  /** `indicated_airspeed_6_0`: status bit 45, then the raw 10-bit value of bits 46-55. */
  function IndicatedAirspeed60(m: seq<Nibble>): (r: Option<nat>)
    requires |m| >= 14
    ensures r.Some? <==> MsgBit(m, 45) == 1
    ensures r.Some? ==> r.value == Field(m, 46, 55) && r.value <= 1023
  {
    FlagAndRangeValueNarrow(m, 45, 46, 55);
    Pow2Table();
    var (status, value) := FlagAndRangeValue(m, 45, 46, 55).value;
    if status == 0 then None else Some(value)
  }

  /**
   * The Mach field of `mach_number_6_0`: status bit 56 and the 10-bit count
   * of bits 57-66; the Mach number is the count times 0.004.
   */
  function MachCount60(m: seq<Nibble>): (r: Option<nat>)
    requires |m| >= 17
    ensures r.Some? <==> MsgBit(m, 56) == 1
    ensures r.Some? ==> r.value == Field(m, 57, 66) && r.value <= 1023
  {
    FlagAndRangeValueNarrow(m, 56, 57, 66);
    Pow2Table();
    var (status, value) := FlagAndRangeValue(m, 56, 57, 66).value;
    if status == 0 then None else Some(value)
  }

  /**
   * `barometric_altitude_rate` and `internal_vertical_velocity`: `value << 5`,
   * less 16384 when the sign is set, the two's complement rate of 32 ft/min a
   * step.
   */
  function VerticalRate(sign: nat, value: nat): (r: int)
    ensures r == (value - 512 * Ehs50.SignOf(sign)) * 32
    ensures value < 512 ==> -16384 <= r <= 16352
  {
    var rate := value * 32;
    if sign == 0 then rate else rate - 16384
  }

  /** The published vectors of both rate decoders. */
  lemma VerticalRateVectors()
    ensures VerticalRate(0, 511) == 16352 && VerticalRate(1, 511) == -32
    ensures VerticalRate(0, 1) == 32 && VerticalRate(1, 1) == -16352
  {
  }

  /** `barometric_altitude_rate_6_0`: status bit 67, sign bit 68, magnitude bits 69-77. */
  function BaroAltitudeRate60(m: seq<Nibble>): (r: Option<int>)
    requires |m| >= 20
    ensures r.Some? <==> MsgBit(m, 67) == 1
    ensures r.Some? ==> r.value == VerticalRate(MsgBit(m, 68), Field(m, 69, 77))
    ensures r.Some? ==> -16384 <= r.value <= 16352
  {
    FlagAndRangeValueNarrow(m, 67, 68, 77);
    FlagAndRangeValueNarrow(m, 68, 69, 77);
    Pow2Table();
    if FlagAndRangeValue(m, 67, 68, 77).value.0 == 0 then None
    else
      var (sign, value) := FlagAndRangeValue(m, 68, 69, 77).value;
      Some(VerticalRate(sign, value))
  }

  /** `internal_vertical_velocity_6_0`: status bit 78, sign bit 79, magnitude bits 80-88. */
  function InternalVerticalVelocity60(m: seq<Nibble>): (r: Option<int>)
    requires |m| >= 22
    ensures r.Some? <==> MsgBit(m, 78) == 1
    ensures r.Some? ==> r.value == VerticalRate(MsgBit(m, 79), Field(m, 80, 88))
    ensures r.Some? ==> -16384 <= r.value <= 16352
  {
    FlagAndRangeValueNarrow(m, 78, 79, 88);
    FlagAndRangeValueNarrow(m, 79, 80, 88);
    Pow2Table();
    if FlagAndRangeValue(m, 78, 79, 88).value.0 == 0 then None
    else
      var (sign, value) := FlagAndRangeValue(m, 79, 80, 88).value;
      Some(VerticalRate(sign, value))
  }
}
