/**
 * The BDS 4,4 extractor of the aircraft state (src/decoder/bds/bds_4_4/mod.rs):
 * a meteorological routine report is accepted when its figure of merit
 * exceeds 8, its five fields are good and its temperature is plausible.
 */
module Bds44 {
  import opened Wrappers
  import opened Bits
  import opened Calc
  import opened MeteoFields
  import opened CommB

  /** The `Meteo` record: each field present only when decoded and in range. */
  datatype Meteo = Meteo(
    temp: Option<real>,
    wind: Option<(nat, nat)>,
    humidity: Option<nat>,
    turbulence: Option<nat>,
    pressure: Option<nat>)

  /** `Meteo::new`: no field present. */
  function EmptyMeteo(): (w: Meteo)
    ensures w.temp.None? && w.wind.None? && w.humidity.None? && w.turbulence.None? && w.pressure.None?
  {
    Meteo(None, None, None, None, None)
  }

  /** `Option::filter`. */
  function Filter<T>(o: Option<T>, p: T -> bool): (r: Option<T>)
    ensures r.Some? <==> o.Some? && p(o.value)
    ensures r.Some? ==> r.value == o.value
  {
    if o.Some? && p(o.value) then o else None
  }

  /**
   * `is_bds_4_4`: the report when the figure of merit (bits 33-36) exceeds 8
   * and the five fields are good, with temperature, wind, humidity,
   * turbulence and pressure each kept only in range; absent unless the
   * temperature, humidity, turbulence and pressure all survive.
   */
  function IsBds44(m: seq<Nibble>): (r: Option<Meteo>)
    requires |m| >= 22
    ensures r.Some? ==> m[8] > 8 && Is44(m)
    ensures r.Some? ==> r.value.temp.Some? && r.value.humidity.Some? && r.value.turbulence.Some?
    ensures r.Some? ==> r.value.pressure.Some?
  {
    FigureOfMerit(m);
    var fom := RangeValue(m, 33, 36);
    if fom > 8 && Is44(m) then
      var meteo := Meteo(
        Filter(Temperature44(m), t => -80.0 <= t <= 60.0),
        Filter(Wind44(m), (w: (nat, nat)) => w.0 <= 300),
        Filter(Humidity44(m), h => h <= 100),
        Filter(Turbulence44(m), x => x <= 15),
        Filter(Pressure44(m), p => p <= 2048));
      if meteo.temp.Some? && meteo.humidity.Some? && meteo.turbulence.Some? && meteo.pressure.Some?
      then Some(meteo)
      else None
    else None
  }

  /**
   * The report is accepted exactly when the figure of merit exceeds 8, the
   * five fields are good and the temperature lies in [-80, 60]: the other
   * range filters never remove a field the status bits admit.
   */
  lemma IsBds44Accepts(m: seq<Nibble>)
    requires |m| >= 22
    ensures IsBds44(m).Some? <==>
      m[8] > 8 && Is44(m) && -80.0 <= Temp44(MsgBit(m, 56), Field(m, 57, 66)) <= 60.0
  {
    FigureOfMerit(m);
  }

  /** An accepted report carries every decoded field, the wind only when its speed is at most 300 knots. */
  lemma IsBds44Fields(m: seq<Nibble>)
    requires |m| >= 22 && IsBds44(m).Some?
    ensures IsBds44(m).value.temp == Some(Temp44(MsgBit(m, 56), Field(m, 57, 66)))
    ensures IsBds44(m).value.humidity == Some(Percent(Field(m, 83, 88)))
    ensures IsBds44(m).value.turbulence == Some(Field(m, 80, 81))
    ensures IsBds44(m).value.pressure == Some(Field(m, 68, 78))
    ensures IsBds44(m).value.wind.Some? <==> Field(m, 38, 46) <= 300
    ensures IsBds44(m).value.wind.Some? ==>
      IsBds44(m).value.wind.value == (Field(m, 38, 46), WindAngle(Field(m, 47, 55)))
  {
  }

  /** The figure of merit is nibble 8. */
  lemma FigureOfMerit(m: seq<Nibble>)
    requires |m| >= 22
    ensures RangeValue(m, 33, 36) == m[8]
  {
    WholeNibble(m, 8);
  }
}
