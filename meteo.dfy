/**
 * The field decoders of the Comm-B meteorological routine report, BDS 4,4
 * (src/adsb/meteo/mod.rs): temperature, wind, turbulence, humidity and
 * static pressure, each behind a status bit (the temperature behind a sign
 * bit only).
 */
module MeteoFields {
  import opened Wrappers
  import opened Bits
  import opened Calc

  /**
   * `temp_4_4`: a sign-magnitude temperature in quarter degrees; a set sign
   * negates the magnitude (`!temp + 1` is the two's complement negation).
   */
  function Temp44(sign: nat, value: nat): (t: real)
    ensures sign == 0 ==> t * 4.0 == value as real
    ensures sign != 0 ==> t * 4.0 == -(value as real)
    ensures value < 1024 ==> -255.75 <= t <= 255.75
  {
    if sign == 0 then value as real * 0.25 else -(value as real) * 0.25
  }

  /** The published vectors of `temp_4_4`: the largest magnitude either way. */
  lemma Temp44Vectors()
    ensures Temp44(1, 1023) == -255.75 && Temp44(0, 1023) == 255.75
  {
  }

  /** `temperature_4_4`: sign bit 56 and magnitude bits 57-66; never absent. */
  function Temperature44(m: seq<Nibble>): (r: Option<real>)
    requires |m| >= 17
    ensures r.Some?
    ensures r.value == Temp44(MsgBit(m, 56), Field(m, 57, 66))
    ensures -255.75 <= r.value <= 255.75
  {
    FlagAndRangeValueNarrow(m, 56, 57, 66);
    Pow2Table();
    var (sign, value) := FlagAndRangeValue(m, 56, 57, 66).value;
    Some(Temp44(sign, value))
  }

  /** `wind_speed`: status bit 37, then the 9-bit speed in knots of bits 38-46. */
  function WindSpeed(m: seq<Nibble>): (r: Option<nat>)
    requires |m| >= 12
    ensures r.Some? <==> MsgBit(m, 37) == 1
    ensures r.Some? ==> r.value == Field(m, 38, 46) && r.value <= 511
  {
    FlagAndRangeValueNarrow(m, 37, 38, 46);
    Pow2Table();
    var (status, speed) := FlagAndRangeValue(m, 37, 38, 46).value;
    if status == 1 then Some(speed) else None
  }

  /** `(value * 180) >> 8`: 180/256 of a degree a step, rounded down; below 360 for 9 bits. */
  function WindAngle(value: nat): (d: nat)
    ensures d * 256 <= value * 180 < (d + 1) * 256
    ensures value < 512 ==> d < 360
  {
    (value * 180) / 256
  }

  /** `wind_direction`: the same status bit 37, then the 9-bit direction of bits 47-55. */
  function WindDirection(m: seq<Nibble>): (r: Option<nat>)
    requires |m| >= 14
    ensures r.Some? <==> MsgBit(m, 37) == 1
    ensures r.Some? ==> r.value == WindAngle(Field(m, 47, 55)) && r.value < 360
  {
    FlagAndRangeValueNarrow(m, 37, 47, 55);
    Pow2Table();
    var (status, value) := FlagAndRangeValue(m, 37, 47, 55).value;
    if status == 1 then Some(WindAngle(value)) else None
  }

  /**
   * `wind_4_4`: speed and direction together.  Both are guarded by bit 37,
   * so the direction is present whenever the speed is and the `unwrap` never
   * fails.
   */
  function Wind44(m: seq<Nibble>): (r: Option<(nat, nat)>)
    requires |m| >= 14
    ensures r.Some? <==> MsgBit(m, 37) == 1
    ensures r.Some? ==> r.value == (Field(m, 38, 46), WindAngle(Field(m, 47, 55)))
    ensures r.Some? ==> r.value.0 <= 511 && r.value.1 < 360
  {
    match WindSpeed(m)
    case None => None
    case Some(speed) =>
      match WindDirection(m)
      case Some(direction) => Some((speed, direction))
  }

  /** `turbulence_4_4`: status bit 79, then the 2-bit turbulence of bits 80-81. */
  function Turbulence44(m: seq<Nibble>): (r: Option<nat>)
    requires |m| >= 21
    ensures r.Some? <==> MsgBit(m, 79) == 1
    ensures r.Some? ==> r.value == Field(m, 80, 81) && r.value <= 3
  {
    FlagAndRangeValueNarrow(m, 79, 80, 81);
    Pow2Table();
    var (status, value) := FlagAndRangeValue(m, 79, 80, 81).value;
    if status == 1 then Some(value) else None
  }

  /** `(value * 100) >> 6`: a 6-bit count as a percentage, rounded down; at most 98. */
  function Percent(value: nat): (p: nat)
    ensures p * 64 <= value * 100 < (p + 1) * 64
    ensures value < 64 ==> p <= 98
  {
    (value * 100) / 64
  }

  /** The published vectors of the humidity scaling. */
  lemma PercentVectors()
    ensures Percent(63) == 98 && Percent(1) == 1 && Percent(0) == 0
  {
  }

  /** `humidity_4_4`: status bit 82, then the 6-bit humidity of bits 83-88 as a percentage. */
  function Humidity44(m: seq<Nibble>): (r: Option<nat>)
    requires |m| >= 22
    ensures r.Some? <==> MsgBit(m, 82) == 1
    ensures r.Some? ==> r.value == Percent(Field(m, 83, 88)) && r.value <= 98
  {
    FlagAndRangeValueNarrow(m, 82, 83, 88);
    Pow2Table();
    var (status, value) := FlagAndRangeValue(m, 82, 83, 88).value;
    if status == 1 then Some(Percent(value)) else None
  }

  /** `pressure_4_4`: status bit 67, then the 11-bit static pressure of bits 68-78. */
  function Pressure44(m: seq<Nibble>): (r: Option<nat>)
    requires |m| >= 20
    ensures r.Some? <==> MsgBit(m, 67) == 1
    ensures r.Some? ==> r.value == Field(m, 68, 78) && r.value <= 2047
  {
    FlagAndRangeValueNarrow(m, 67, 68, 78);
    Pow2Table();
    var (status, value) := FlagAndRangeValue(m, 67, 68, 78).value;
    if status == 1 then Some(value) else None
  }
}
