/**
 * The state kept for one aircraft (src/decoder/plane/mod.rs, update.rs and
 * update_position.rs).  Each reply or squitter of the aircraft updates the
 * fields its downlink format and type code carry; an even/odd pair of
 * position squitters captured less than 10 s apart is decoded to a fix.
 *
 * `State` is the value of every field of a `Plane`; the spec functions below
 * (`Header`, `Extended`, `CommBUpdate`, `CprUpdated`, `PositionUpdated`) give the new
 * state of each step of `update`, and the methods of `Plane` are proved to
 * leave exactly that state.  Decoders whose source is not part of this model
 * (`is_bds_1_7`, `is_bds_4_0`, `is_bds_5_0`, `is_bds_6_0`, `is_bds_4_5`, the
 * velocity, heading, ground-movement, GNSS-height, version and
 * surveillance-status decoders) reach the model as a `Decoded` record; the
 * clock is the `now` parameter, in whole seconds.
 */
module Aircraft {
  import opened Wrappers
  import opened Bits
  import Utils
  import BaroAltitude
  import Squawk
  import Ais
  import Delta
  import Position
  import CommB
  import Bds44

  /** The two slots of the even (0) and the odd (1) position format. */
  type Slots = s: seq<nat> | |s| == 2 witness [0, 0]
  type Times = s: seq<int> | |s| == 2 witness [0, 0]

  /** The Comm-B capability report (BDS 1,7): its flags and the registers it announces. */
  datatype Capability = Capability(flags: nat, bds40: bool, bds44: bool, bds50: bool, bds60: bool)

  const NoCapability := Capability(0, false, false, false, false)

  /** The selected vertical intention report (BDS 4,0). */
  datatype Bds40Report = Bds40Report(mcp: Option<nat>, fms: Option<nat>, baro: Option<nat>, target: Option<nat>)

  /** The track and turn report (BDS 5,0). */
  datatype Bds50Report = Bds50Report(
    roll: Option<int>, track: Option<nat>, rate: Option<int>, groundSpeed: Option<nat>, airspeed: Option<nat>)

  /** The heading and speed report (BDS 6,0). */
  datatype Bds60Report = Bds60Report(
    heading: Option<nat>, airspeed: Option<nat>, mach: Option<real>, baroRate: Option<int>, inertialRate: Option<int>)

  /** What the decoders outside this model make of the message being applied. */
  datatype Decoded = Decoded(
    groundMovement: Option<real>,
    groundTrack: Option<nat>,
    surveillanceStatus: char,
    verticalRate: Option<int>,
    subsonic: (Option<nat>, Option<nat>),
    supersonic: (Option<nat>, Option<nat>),
    heading: Option<nat>,
    altitudeGnss: Option<nat>,
    version: Option<nat>,
    bds17: Option<Capability>,
    bds40: Option<Bds40Report>,
    bds50: Option<Bds50Report>,
    bds60: Option<Bds60Report>,
    bds45: Option<real>)

  /** Every field of a `Plane`, in the order of the record. */
  datatype State = State(
    icao: nat,
    capability: (nat, Capability),
    category: (nat, nat),
    reg: string,
    ais: Option<string>,
    altitude: Option<nat>,
    altitudeGnss: Option<nat>,
    altitudeSource: char,
    selectedAltitude: Option<nat>,
    barometricPressureSetting: Option<nat>,
    targetAltitudeSource: char,
    squawk: Option<nat>,
    surveillanceStatus: char,
    threatEncounter: Option<char>,
    vrate: Option<int>,
    vrateSource: char,
    cprLat: Slots,
    cprLon: Slots,
    cprTime: Times,
    lat: real,
    lon: real,
    grspeed: Option<nat>,
    trueAirspeed: Option<nat>,
    indicatedAirspeed: Option<nat>,
    machNumber: Option<real>,
    groundMovement: Option<real>,
    turn: nat,
    track: Option<nat>,
    trackSource: char,
    heading: Option<nat>,
    headingSource: char,
    rollAngle: Option<int>,
    trackAngleRate: Option<int>,
    bds50Timestamp: Option<int>,
    temperature: Option<real>,
    wind: Option<(nat, nat)>,
    turbulence: Option<nat>,
    humidity: Option<nat>,
    pressure: Option<nat>,
    timestamp: int,
    positionTimestamp: Option<int>,
    trackTimestamp: Option<int>,
    headingTimestamp: Option<int>,
    lastTypeCode: nat,
    lastDf: nat,
    adsbVersion: Option<nat>)

  /** `Plane::new`, with both clock readings `now`. */
  function Initial(now: int): State
  {
    State(0, (0, NoCapability), (0, 0), "", None, None, None, ' ', None, None, ' ', None, ' ', None,
          None, '_', [0, 0], [0, 0], [now, now], 0.0, 0.0, None, None, None, None, None, 0,
          None, ' ', None, ' ', None, None, None, None, None, None, None, None, now, None, None, None,
          0, 0, None)
  }

  /** Nothing decoded yet: no optional field present, both position slots and the fix zero. */
  predicate Blank(s: State)
  {
    && s.ais.None? && s.altitude.None? && s.altitudeGnss.None? && s.selectedAltitude.None?
    && s.barometricPressureSetting.None? && s.squawk.None? && s.threatEncounter.None? && s.vrate.None?
    && s.grspeed.None? && s.trueAirspeed.None? && s.indicatedAirspeed.None? && s.machNumber.None?
    && s.groundMovement.None? && s.track.None? && s.heading.None? && s.rollAngle.None?
    && s.trackAngleRate.None? && s.bds50Timestamp.None? && s.temperature.None? && s.wind.None?
    && s.turbulence.None? && s.humidity.None? && s.pressure.None? && s.positionTimestamp.None?
    && s.trackTimestamp.None? && s.headingTimestamp.None? && s.adsbVersion.None?
    && s.cprLat == [0, 0] && s.cprLon == [0, 0] && s.lat == 0.0 && s.lon == 0.0
    && s.lastDf == 0 && s.lastTypeCode == 0 && s.capability == (0, NoCapability)
  }

  /** The invariants of an aircraft's state: a committed fix is a coordinate, an altitude is below the ceiling. */
  predicate Plausible(s: State)
  {
    && -90.0 <= s.lat <= 90.0 && -180.0 <= s.lon <= 180.0
    && (s.altitude.Some? ==> s.altitude.value < BaroAltitude.Ceiling)
  }

  /** The lengths `update` indexes: any format reads to bit 32, the long ones to bit 88. */
  predicate Fits(m: seq<Nibble>, df: nat)
  {
    |m| >= 8 && (df == 17 || df == 18 || df == 20 || df == 21 ==> |m| >= 22)
  }

  /** `message_type`: the type code (bits 33-37) and the subtype (bits 38-40) of an extended squitter. */
  function MessageType(m: seq<Nibble>): (r: (nat, nat))
    requires |m| >= 10
    ensures r.0 == Field(m, 33, 37) && r.1 == Field(m, 38, 40)
    ensures r.0 < 32 && r.1 < 8
  {
    Pow2Small();
    FieldSplit(m, 33, 36, 37);
    WholeNibble(m, 8);
    FieldNibbleTail(m, 9, 0);
    FieldNibbleHead(m, 9, 1);
    (m[8] as int * 2 + m[9] as int / 8, m[9] as int % 8)
  }

  /**
   * `threat_encounter` (src/decoder/adsb/acas.rs): several threats when bit 60
   * is set, one threat when only bit 41 is set, otherwise none.
   */
  function ThreatEncounter(m: seq<Nibble>): (r: Option<char>)
    requires |m| >= 15
    ensures r == Some('\U{2072}') <==> MsgBit(m, 60) == 1
    ensures r == Some('\U{2071}') <==> MsgBit(m, 60) == 0 && MsgBit(m, 41) == 1
    ensures r.None? <==> MsgBit(m, 60) == 0 && MsgBit(m, 41) == 0
  {
    Pow2Small();
    MsgBitInNibble(m, 14, 3);
    MsgBitInNibble(m, 10, 0);
    if m[14] % 2 == 1 then Some('\U{2072}')
    else if (m[10] / 8) % 2 == 1 then Some('\U{2071}')
    else None
  }

  /** `as u32` of a signed 32-bit value: two's complement wrap-around. */
  function Wrap32(x: int): (w: nat)
    ensures w < 0x1_0000_0000
    ensures 0 <= x < 0x1_0000_0000 ==> w == x
    ensures -0x1_0000_0000 <= x < 0 ==> w == x + 0x1_0000_0000
  {
    x % 0x1_0000_0000
  }

  /** The first step of `update`: the clock, the format, and the fields every reply of that format carries. */
  function Header(s: State, m: seq<Nibble>, df: nat, now: int): State
    requires Fits(m, df)
  {
    var s1 := s.(timestamp := now, lastDf := df);
    var s2 := if df == 4 || df == 20 then s1.(altitude := BaroAltitude.AltitudeAsWritten(m, df), altitudeSource := ' ') else s1;
    var s3 := if df == 5 || df == 21 then s2.(squawk := Squawk.Squawk(m)) else s2;
    if df == 11 || df == 17 then s3.(capability := (Utils.Ca(m), s3.capability.1)) else s3
  }

  /**
   * `update_position`: with all four encoded values non-zero and the two
   * captures less than 10 s apart, the pair is decoded with 4 zones a band for
   * a surface position (type codes 5-8) and 1 for an airborne one (9-18); a
   * result within [-90, 90] x [-180, 180] becomes the fix, stamped with the
   * current time.
   */
  function PositionUpdated(s: State, tc: nat, form: nat): State
    requires form <= 1
  {
    if s.cprLat[0] != 0 && s.cprLat[1] != 0 && s.cprLon[0] != 0 && s.cprLon[1] != 0
       && Utils.AbsDiff(s.cprTime[0], s.cprTime[1]) < 10
    then
      var fix :=
        if 5 <= tc <= 8 then Position.CprLocation(s.cprLat, s.cprLon, form, 4)
        else if 9 <= tc <= 18 then Position.CprLocation(s.cprLat, s.cprLon, form, 1)
        else None;
      if fix.Some? && -90.0 <= fix.value.0 <= 90.0 && -180.0 <= fix.value.1 <= 180.0 then
        s.(lat := fix.value.0, lon := fix.value.1, positionTimestamp := Some(s.timestamp))
      else s
    else s
  }

  /** `update_cpr`: the encoded position fills the slot of its format, then a fix is attempted. */
  function CprUpdated(s: State, m: seq<Nibble>, tc: nat): State
    requires |m| >= 22
  {
    var (form, lat, lon) := Position.Cpr(m).value;
    if form <= 1 then
      PositionUpdated(
        s.(cprLat := s.cprLat[form := lat], cprLon := s.cprLon[form := lon], cprTime := s.cprTime[form := s.timestamp]),
        tc, form)
    else s
  }

  /** `update_from_ext_1_4`: identification and category. */
  function FromExt14(s: State, m: seq<Nibble>, tc: nat, st: nat): State
    requires |m| >= 22
  {
    s.(ais := Ais.Ais(m), category := (tc, st))
  }

  /** `update_from_ext_5_8`: a surface position clears the altitude. */
  function FromExt58(s: State, m: seq<Nibble>, tc: nat, d: Decoded): State
    requires |m| >= 22
  {
    CprUpdated(
      s.(groundMovement := d.groundMovement, altitude := None, altitudeSource := '\U{2070}',
         track := d.groundTrack, trackSource := ' '),
      m, tc)
  }

  /** `update_from_ext_9_18`: an airborne position with its barometric altitude. */
  function FromExt918(s: State, m: seq<Nibble>, tc: nat, df: nat, d: Decoded): State
    requires |m| >= 22
  {
    CprUpdated(
      s.(altitude := BaroAltitude.AltitudeAsWritten(m, df), altitudeSource := ' ', surveillanceStatus := d.surveillanceStatus),
      m, tc)
  }

  /**
   * Type code 19, airborne velocity: the vertical rate, the GNSS height as
   * `(altitude as i32 + delta) as u32` when both are known, then the track and
   * speed of subtype 1 or 2 or the heading of subtype 3 or 4.
   */
  function Velocity(s: State, m: seq<Nibble>, st: nat, d: Decoded): State
    requires |m| >= 22
  {
    var s1 := s.(vrate := d.verticalRate, vrateSource := ' ');
    var delta := Delta.AltitudeDelta(m);
    var s2 := if s1.altitude.Some? && delta.Some? then s1.(altitudeGnss := Some(Wrap32(s1.altitude.value + delta.value))) else s1;
    if st == 1 then s2.(track := d.subsonic.0, grspeed := d.subsonic.1, trackSource := '\U{2081}')
    else if st == 2 then s2.(track := d.supersonic.0, grspeed := d.supersonic.1, trackSource := '\U{2082}')
    else if st == 3 || st == 4 then s2.(heading := d.heading, headingSource := '\U{2083}', altitudeSource := '"')
    else s2
  }

  /** The extended-squitter step of `update` (DF 17 and 18), dispatched on the type code. */
  function Extended(s: State, m: seq<Nibble>, df: nat, d: Decoded): State
    requires Fits(m, df)
  {
    if df == 17 || df == 18 then
      var (tc, st) := MessageType(m);
      ByTypeCode(s.(lastTypeCode := tc), m, df, tc, st, d)
    else s
  }

  /** The `match` on the type code. */
  function ByTypeCode(s: State, m: seq<Nibble>, df: nat, tc: nat, st: nat, d: Decoded): State
    requires |m| >= 22
  {
    if 1 <= tc <= 4 then FromExt14(s, m, tc, st)
    else if 5 <= tc <= 8 then FromExt58(s, m, tc, d)
    else if 9 <= tc <= 18 then FromExt918(s, m, tc, df, d)
    else if tc == 19 then Velocity(s, m, st, d)
    else if 20 <= tc <= 22 then s.(altitudeGnss := d.altitudeGnss, surveillanceStatus := d.surveillanceStatus)
    else if tc == 31 then s.(adsbVersion := d.version)
    else s
  }

  /** The character shown for the target altitude source of BDS 4,0. */
  function TargetSource(t: Option<nat>): (c: char)
    ensures t == Some(1) ==> c == '\U{2081}'
    ensures t == Some(2) ==> c == '\U{2082}'
    ensures t == Some(3) ==> c == '\U{2083}'
    ensures !(t == Some(1) || t == Some(2) || t == Some(3)) ==> c == ' '
  {
    match t
    case Some(v) => if v == 1 then '\U{2081}' else if v == 2 then '\U{2082}' else if v == 3 then '\U{2083}' else ' '
    case None => ' '
  }

  /** BDS 1,7 while no register is known. */
  function Step17(s: State, bds: (nat, nat), d: Decoded): (State, (nat, nat))
  {
    if bds == (0, 0) && d.bds17.Some? then (s.(capability := (s.capability.0, d.bds17.value)), (1, 7))
    else (s, bds)
  }

  /** BDS 4,0 while no register is known, if announced or relaxed. */
  function Step40(s: State, bds: (nat, nat), relaxed: bool, d: Decoded): (State, (nat, nat))
  {
    if bds == (0, 0) && (relaxed || s.capability.1.bds40) && d.bds40.Some? then
      var v := d.bds40.value;
      (s.(selectedAltitude := if v.mcp.Some? then v.mcp else v.fms,
          targetAltitudeSource := TargetSource(v.target),
          barometricPressureSetting := v.baro),
       (4, 0))
    else (s, bds)
  }

  /** BDS 5,0 while no register is known, if announced or relaxed. */
  function Step50(s: State, bds: (nat, nat), relaxed: bool, d: Decoded): (State, (nat, nat))
  {
    if bds == (0, 0) && (relaxed || s.capability.1.bds50) && d.bds50.Some? then
      var v := d.bds50.value;
      (s.(rollAngle := v.roll, track := v.track, trackAngleRate := v.rate, grspeed := v.groundSpeed,
          trueAirspeed := v.airspeed, bds50Timestamp := Some(s.timestamp), trackSource := '\U{2085}',
          trackTimestamp := Some(s.timestamp)),
       (5, 0))
    else (s, bds)
  }

  /** BDS 6,0 while no register is known, if announced or relaxed. */
  function Step60(s: State, bds: (nat, nat), relaxed: bool, d: Decoded): (State, (nat, nat))
  {
    if bds == (0, 0) && (relaxed || s.capability.1.bds60) && d.bds60.Some? then
      var v := d.bds60.value;
      (s.(heading := v.heading, indicatedAirspeed := v.airspeed, machNumber := v.mach,
          vrate := if v.baroRate.Some? then v.baroRate else v.inertialRate,
          vrateSource := if v.baroRate.Some? then '\U{2086}' else '\U{2071}',
          headingSource := '\U{2086}', headingTimestamp := Some(s.timestamp)),
       (6, 0))
    else (s, bds)
  }

  /** BDS 4,4 while no register is known; a missing wind keeps the last one. */
  function Step44(s: State, bds: (nat, nat), m: seq<Nibble>): (State, (nat, nat))
    requires |m| >= 22
  {
    var meteo := Bds44.IsBds44(m);
    if bds == (0, 0) && meteo.Some? then
      var w := meteo.value;
      (s.(temperature := w.temp, wind := if w.wind.Some? then w.wind else s.wind,
          humidity := w.humidity, turbulence := w.turbulence, pressure := w.pressure),
       (4, 4))
    else (s, bds)
  }

  /** Whether `update` decodes the Comm-B field of the message. */
  predicate CommBGate(s: State, df: nat, relaxed: bool)
  {
    (relaxed || s.capability.0 > 3) && (df == 20 || df == 21)
  }

  /**
   * The Comm-B step of `update` with the register it settled on: the
   * register the message announces (BDS 1,0, 2,0 or 3,0), else the first of
   * BDS 1,7, 4,0, 5,0, 6,0 and 4,4 that decodes; (0,0) when none does or
   * the step is skipped.
   */
  function CommBUpdate(s: State, m: seq<Nibble>, df: nat, relaxed: bool, d: Decoded): (State, (nat, nat))
    requires Fits(m, df)
  {
    if CommBGate(s, df, relaxed) then
      var bds := CommB.PrefixBds(m);
      Cascade(Announced(s, m, bds), bds, m, relaxed, d)
    else (s, (0, 0))
  }

  /** The callsign of BDS 2,0 and the threat of BDS 3,0, for the register the message announces. */
  function Announced(s: State, m: seq<Nibble>, bds: (nat, nat)): State
    requires |m| >= 22
  {
    var s1 := if bds == (2, 0) then s.(ais := Ais.Ais(m)) else s;
    if bds == (3, 0) then s1.(threatEncounter := ThreatEncounter(m)) else s1
  }

  /** The registers tried in turn while none is known, then BDS 4,5. */
  function Cascade(s: State, bds: (nat, nat), m: seq<Nibble>, relaxed: bool, d: Decoded): (State, (nat, nat))
    requires |m| >= 22
  {
    var r17 := Step17(s, bds, d);
    var r40 := Step40(r17.0, r17.1, relaxed, d);
    var r50 := Step50(r40.0, r40.1, relaxed, d);
    var r60 := Step60(r50.0, r50.1, relaxed, d);
    var r44 := Step44(r60.0, r60.1, m);
    (if r44.1 == (4, 5) then r44.0.(temperature := d.bds45) else r44.0, r44.1)
  }

  /** `update`: the state after one message. */
  function Updated(s: State, m: seq<Nibble>, df: nat, relaxed: bool, now: int, d: Decoded): State
    requires Fits(m, df)
  {
    var s1 := Header(s, m, df, now);
    CommBUpdate(Extended(s1, m, df, d), m, df, relaxed, d).0
  }

  /** Every message stamps the clock and the format. */
  lemma UpdateStamps(s: State, m: seq<Nibble>, df: nat, relaxed: bool, now: int, d: Decoded)
    requires Fits(m, df)
    ensures Updated(s, m, df, relaxed, now, d).timestamp == now
    ensures Updated(s, m, df, relaxed, now, d).lastDf == df
  {
    var h := Header(s, m, df, now);
    ExtendedKeeps(h, m, df, d);
    CommBKeeps(Extended(h, m, df, d), m, df, relaxed, d);
  }

  /**
   * The altitude is written by DF 4 and 20 (the reply's own code) and by
   * extended squitters; the squawk only by DF 5 and 21; the transponder
   * capability only by DF 11 and 17.
   */
  lemma HeaderFields(s: State, m: seq<Nibble>, df: nat, relaxed: bool, now: int, d: Decoded)
    requires Fits(m, df)
    ensures var t := Updated(s, m, df, relaxed, now, d);
      && (df == 4 || df == 20 ==> t.altitude == BaroAltitude.AltitudeAsWritten(m, df))
      && (df != 4 && df != 20 && df != 17 && df != 18 ==> t.altitude == s.altitude)
      && t.squawk == (if df == 5 || df == 21 then Squawk.Squawk(m) else s.squawk)
      && t.capability.0 == (if df == 11 || df == 17 then Utils.Ca(m) else s.capability.0)
  {
    var h := Header(s, m, df, now);
    ExtendedKeeps(h, m, df, d);
    CommBKeeps(Extended(h, m, df, d), m, df, relaxed, d);
  }

  /**
   * The DF 20 reply of the altitude tests (code 8232): the aircraft keeps no
   * barometric altitude from it, as the source's decoder gives none.
   */
  lemma UpdateAltitudeVector(s: State, m: seq<Nibble>, relaxed: bool, now: int, d: Decoded)
    requires |m| >= 22 && m[0] == 10 && m[1] == 0
    requires m[4] == 1 && m[5] == 0 && m[6] == 0 && m[7] == 10
    ensures Updated(s, m, 20, relaxed, now, d).altitude == None
  {
    HeaderFields(s, m, 20, relaxed, now, d);
    BaroAltitude.AltitudeVector2(m);
  }

  /** What the extended-squitter step leaves alone, and that it does nothing for other formats. */
  lemma ExtendedKeeps(s: State, m: seq<Nibble>, df: nat, d: Decoded)
    requires Fits(m, df)
    ensures HeaderKept(s, Extended(s, m, df, d))
    ensures df != 17 && df != 18 ==> Extended(s, m, df, d) == s
  {
    if df == 17 || df == 18 {
      var (tc, st) := MessageType(m);
      ByTypeCodeKeeps(s.(lastTypeCode := tc), m, df, tc, st, d);
    }
  }

  /** The fields of the header step agree between s and t. */
  predicate HeaderKept(s: State, t: State)
  {
    t.timestamp == s.timestamp && t.lastDf == s.lastDf && t.squawk == s.squawk && t.capability == s.capability
  }

  lemma ByTypeCodeKeeps(s: State, m: seq<Nibble>, df: nat, tc: nat, st: nat, d: Decoded)
    requires |m| >= 22
    ensures HeaderKept(s, ByTypeCode(s, m, df, tc, st, d))
  {
    if 5 <= tc <= 8 {
      CprKeeps(s.(groundMovement := d.groundMovement, altitude := None, altitudeSource := '\U{2070}',
                  track := d.groundTrack, trackSource := ' '), m, tc);
    } else if 9 <= tc <= 18 {
      CprKeeps(s.(altitude := BaroAltitude.AltitudeAsWritten(m, df), altitudeSource := ' ',
                  surveillanceStatus := d.surveillanceStatus), m, tc);
    }
  }

  /** `update_cpr` changes only the slots, the fix and its time stamp. */
  lemma CprKeeps(s: State, m: seq<Nibble>, tc: nat)
    requires |m| >= 22
    ensures var t := CprUpdated(s, m, tc);
      t == s.(cprLat := t.cprLat, cprLon := t.cprLon, cprTime := t.cprTime,
              lat := t.lat, lon := t.lon, positionTimestamp := t.positionTimestamp)
  {
    var (form, lat, lon) := Position.Cpr(m).value;
    PositionKeeps(s.(cprLat := s.cprLat[form := lat], cprLon := s.cprLon[form := lon],
                     cprTime := s.cprTime[form := s.timestamp]), tc, form);
  }

  /** `update_position` changes only the fix and its time stamp. */
  lemma PositionKeeps(s: State, tc: nat, form: nat)
    requires form <= 1
    ensures var t := PositionUpdated(s, tc, form);
      t == s.(lat := t.lat, lon := t.lon, positionTimestamp := t.positionTimestamp)
  {
  }

  /** The fields the Comm-B step never writes agree between s and t. */
  predicate CommBFrame(s: State, t: State)
  {
    && t.altitude == s.altitude && t.squawk == s.squawk && t.capability.0 == s.capability.0
    && t.timestamp == s.timestamp && t.lastDf == s.lastDf && t.lastTypeCode == s.lastTypeCode
    && t.altitudeSource == s.altitudeSource && t.cprLat == s.cprLat && t.cprLon == s.cprLon
    && t.cprTime == s.cprTime && t.lat == s.lat && t.lon == s.lon && t.positionTimestamp == s.positionTimestamp
  }

  /** Each register step keeps the frame of the Comm-B step. */
  lemma Step17Keeps(s: State, b: (nat, nat), d: Decoded)
    ensures CommBFrame(s, Step17(s, b, d).0)
  {
  }

  lemma Step40Keeps(s: State, b: (nat, nat), relaxed: bool, d: Decoded)
    ensures CommBFrame(s, Step40(s, b, relaxed, d).0)
  {
  }

  lemma Step50Keeps(s: State, b: (nat, nat), relaxed: bool, d: Decoded)
    ensures CommBFrame(s, Step50(s, b, relaxed, d).0)
  {
  }

  lemma Step60Keeps(s: State, b: (nat, nat), relaxed: bool, d: Decoded)
    ensures CommBFrame(s, Step60(s, b, relaxed, d).0)
  {
  }

  lemma Step44Keeps(s: State, b: (nat, nat), m: seq<Nibble>)
    requires |m| >= 22
    ensures CommBFrame(s, Step44(s, b, m).0)
  {
  }

  /**
   * The Comm-B step never touches the altitude, the squawk, the transponder
   * capability, the type code, the clock or the position, and does nothing
   * unless the gate is open.
   */
  lemma CommBKeeps(s: State, m: seq<Nibble>, df: nat, relaxed: bool, d: Decoded)
    requires Fits(m, df)
    ensures CommBFrame(s, CommBUpdate(s, m, df, relaxed, d).0)
    ensures !CommBGate(s, df, relaxed) ==> CommBUpdate(s, m, df, relaxed, d) == (s, (0, 0))
  {
    if CommBGate(s, df, relaxed) {
      var bds := CommB.PrefixBds(m);
      var s2 := Announced(s, m, bds);
      assert CommBFrame(s, s2);
      CascadeKeeps(s2, bds, m, relaxed, d);
    }
  }

  lemma CascadeKeeps(s: State, b: (nat, nat), m: seq<Nibble>, relaxed: bool, d: Decoded)
    requires |m| >= 22
    ensures CommBFrame(s, Cascade(s, b, m, relaxed, d).0)
  {
    var r17 := Step17(s, b, d);
    Step17Keeps(s, b, d);
    var r40 := Step40(r17.0, r17.1, relaxed, d);
    Step40Keeps(r17.0, r17.1, relaxed, d);
    var r50 := Step50(r40.0, r40.1, relaxed, d);
    Step50Keeps(r40.0, r40.1, relaxed, d);
    var r60 := Step60(r50.0, r50.1, relaxed, d);
    Step60Keeps(r50.0, r50.1, relaxed, d);
    Step44Keeps(r60.0, r60.1, m);
  }

  /** The fields of each Comm-B register agree between s and t. */
  predicate Kept17(s: State, t: State)
  {
    t.capability.1 == s.capability.1
  }

  predicate Kept40(s: State, t: State)
  {
    && t.selectedAltitude == s.selectedAltitude && t.targetAltitudeSource == s.targetAltitudeSource
    && t.barometricPressureSetting == s.barometricPressureSetting
  }

  predicate Kept50(s: State, t: State)
  {
    && t.rollAngle == s.rollAngle && t.trackAngleRate == s.trackAngleRate && t.trueAirspeed == s.trueAirspeed
    && t.bds50Timestamp == s.bds50Timestamp && t.trackTimestamp == s.trackTimestamp
  }

  predicate Kept60(s: State, t: State)
  {
    && t.indicatedAirspeed == s.indicatedAirspeed && t.machNumber == s.machNumber
    && t.headingTimestamp == s.headingTimestamp && t.vrate == s.vrate && t.vrateSource == s.vrateSource
  }

  predicate Kept44(s: State, t: State)
  {
    && t.temperature == s.temperature && t.humidity == s.humidity && t.turbulence == s.turbulence
    && t.pressure == s.pressure && t.wind == s.wind
  }

  /** Once a register is known, the cascade tries nothing. */
  lemma CascadeKnown(s: State, b: (nat, nat), m: seq<Nibble>, relaxed: bool, d: Decoded)
    requires |m| >= 22 && b != (0, 0) && b != (4, 5)
    ensures Cascade(s, b, m, relaxed, d) == (s, b)
  {
  }

  /**
   * From no known register, the cascade applies at most one of BDS 1,7,
   * 4,0, 5,0, 6,0 and 4,4, and the fields of every other register are kept.
   */
  lemma CascadeFromNone(s: State, m: seq<Nibble>, relaxed: bool, d: Decoded)
    requires |m| >= 22
    ensures var (t, r) := Cascade(s, (0, 0), m, relaxed, d);
      && r in {(0, 0), (1, 7), (4, 0), (5, 0), (6, 0), (4, 4)}
      && (r != (1, 7) ==> Kept17(s, t)) && (r != (4, 0) ==> Kept40(s, t))
      && (r != (5, 0) ==> Kept50(s, t)) && (r != (6, 0) ==> Kept60(s, t))
      && (r != (4, 4) ==> Kept44(s, t))
  {
    var r17 := Step17(s, (0, 0), d);
    if r17.1 != (0, 0) {
      CascadeKnown(r17.0, r17.1, m, relaxed, d);
    } else {
      var r40 := Step40(s, (0, 0), relaxed, d);
      if r40.1 != (0, 0) {
        CascadeKnown(r40.0, r40.1, m, relaxed, d);
      } else {
        var r50 := Step50(s, (0, 0), relaxed, d);
        if r50.1 != (0, 0) {
          CascadeKnown(r50.0, r50.1, m, relaxed, d);
        }
      }
    }
  }

  /**
   * BDS 6,0 takes the barometric rate when present (source mark '6'),
   * otherwise the inertial rate (mark 'i'); BDS 4,4 replaces the wind only
   * when the report carries one.
   */
  lemma CascadeRates(s: State, m: seq<Nibble>, relaxed: bool, d: Decoded)
    requires |m| >= 22
    ensures var (t, r) := Cascade(s, (0, 0), m, relaxed, d);
      r == (6, 0) ==>
        && d.bds60.Some?
        && t.vrateSource == (if d.bds60.value.baroRate.Some? then '\U{2086}' else '\U{2071}')
        && t.vrate == (if d.bds60.value.baroRate.Some? then d.bds60.value.baroRate else d.bds60.value.inertialRate)
    ensures var (t, r) := Cascade(s, (0, 0), m, relaxed, d);
      r == (4, 4) ==>
        && Bds44.IsBds44(m).Some?
        && t.wind == (if Bds44.IsBds44(m).value.wind.Some? then Bds44.IsBds44(m).value.wind else s.wind)
  {
    var r17 := Step17(s, (0, 0), d);
    if r17.1 != (0, 0) {
      CascadeKnown(r17.0, r17.1, m, relaxed, d);
    } else {
      var r40 := Step40(s, (0, 0), relaxed, d);
      if r40.1 != (0, 0) {
        CascadeKnown(r40.0, r40.1, m, relaxed, d);
      } else {
        var r50 := Step50(s, (0, 0), relaxed, d);
        if r50.1 != (0, 0) {
          CascadeKnown(r50.0, r50.1, m, relaxed, d);
        }
      }
    }
  }

  /**
   * The Comm-B step settles on at most one register.  A register announced
   * by its first byte (BDS 1,0, 2,0, 3,0) stops the cascade; the cascade's
   * registers are tried only when none is announced; BDS 4,5 is never
   * reached, so its temperature is never written.
   */
  lemma OneRegister(s: State, m: seq<Nibble>, df: nat, relaxed: bool, d: Decoded)
    requires Fits(m, df)
    ensures var (t, r) := CommBUpdate(s, m, df, relaxed, d);
      && r in {(0, 0), (1, 0), (2, 0), (3, 0), (1, 7), (4, 0), (5, 0), (6, 0), (4, 4)}
      && (r in {(1, 7), (4, 0), (5, 0), (6, 0), (4, 4)} ==> CommBGate(s, df, relaxed) && CommB.PrefixBds(m) == (0, 0))
      && (r != (1, 7) ==> Kept17(s, t)) && (r != (4, 0) ==> Kept40(s, t))
      && (r != (5, 0) ==> Kept50(s, t)) && (r != (6, 0) ==> Kept60(s, t))
      && (r != (4, 4) ==> Kept44(s, t))
      && (t.ais != s.ais ==> r == (2, 0)) && (t.threatEncounter != s.threatEncounter ==> r == (3, 0))
  {
    if CommBGate(s, df, relaxed) {
      var bds := CommB.PrefixBds(m);
      var s2 := Announced(s, m, bds);
      if bds == (0, 0) {
        CascadeFromNone(s2, m, relaxed, d);
        CascadeKeepsAnnounced(s2, m, relaxed, d);
      } else {
        CascadeKnown(s2, bds, m, relaxed, d);
      }
    }
  }

  /** The cascade never writes the callsign or the threat. */
  lemma CascadeKeepsAnnounced(s: State, m: seq<Nibble>, relaxed: bool, d: Decoded)
    requires |m| >= 22
    ensures var t := Cascade(s, (0, 0), m, relaxed, d).0;
      t.ais == s.ais && t.threatEncounter == s.threatEncounter
  {
  }

  /**
   * An extended squitter records its type code; a surface position (type
   * codes 5-8) clears the altitude and marks its source '0'.
   */
  lemma TypeCodeFields(s: State, m: seq<Nibble>, df: nat, relaxed: bool, now: int, d: Decoded)
    requires Fits(m, df) && (df == 17 || df == 18)
    ensures var t := Updated(s, m, df, relaxed, now, d);
      && t.lastTypeCode == Field(m, 33, 37)
      && (5 <= Field(m, 33, 37) <= 8 ==> t.altitude.None? && t.altitudeSource == '\U{2070}')
  {
    var h := Header(s, m, df, now);
    var (tc, st) := MessageType(m);
    var s1 := h.(lastTypeCode := tc);
    ByTypeCodeFields(s1, m, df, tc, st, d);
    CommBKeeps(Extended(h, m, df, d), m, df, relaxed, d);
  }

  lemma ByTypeCodeFields(s: State, m: seq<Nibble>, df: nat, tc: nat, st: nat, d: Decoded)
    requires |m| >= 22
    ensures var t := ByTypeCode(s, m, df, tc, st, d);
      && t.lastTypeCode == s.lastTypeCode
      && (5 <= tc <= 8 ==> t.altitude.None? && t.altitudeSource == '\U{2070}')
  {
    if 5 <= tc <= 8 {
      CprKeeps(s.(groundMovement := d.groundMovement, altitude := None, altitudeSource := '\U{2070}',
                  track := d.groundTrack, trackSource := ' '), m, tc);
    } else if 9 <= tc <= 18 {
      CprKeeps(s.(altitude := BaroAltitude.AltitudeAsWritten(m, df), altitudeSource := ' ',
                  surveillanceStatus := d.surveillanceStatus), m, tc);
    }
  }

  /**
   * `update_cpr` writes the slot of the message's format (bit 54) with its
   * encoded latitude and longitude and the current time, and leaves the
   * other slot as it was.
   */
  lemma CprWritesOwnSlot(s: State, m: seq<Nibble>, tc: nat)
    requires |m| >= 22
    ensures var t := CprUpdated(s, m, tc);
      var f := MsgBit(m, 54);
      && t.cprLat[f] == Field(m, 55, 71) && t.cprLon[f] == Field(m, 72, 88) && t.cprTime[f] == s.timestamp
      && t.cprLat[1 - f] == s.cprLat[1 - f] && t.cprLon[1 - f] == s.cprLon[1 - f]
      && t.cprTime[1 - f] == s.cprTime[1 - f]
  {
    CprKeeps(s, m, tc);
  }

  /**
   * `update_position` commits a fix only with all four encoded values
   * non-zero, captures less than 10 s apart and a position type code; the
   * fix is then the global decode with 4 zones a band for type codes 5-8 and
   * 1 for 9-18, within [-90, 90] x [-180, 180], stamped with the current
   * time.  Conversely every such in-range decode is committed.
   */
  lemma PositionGate(s: State, tc: nat, form: nat)
    requires form <= 1
    ensures var t := PositionUpdated(s, tc, form);
      t == s || (
        && s.cprLat[0] != 0 && s.cprLat[1] != 0 && s.cprLon[0] != 0 && s.cprLon[1] != 0
        && Utils.AbsDiff(s.cprTime[0], s.cprTime[1]) < 10 && 5 <= tc <= 18
        && Position.CprLocation(s.cprLat, s.cprLon, form, if tc <= 8 then 4 else 1) == Some((t.lat, t.lon))
        && -90.0 <= t.lat <= 90.0 && -180.0 <= t.lon <= 180.0
        && t == s.(lat := t.lat, lon := t.lon, positionTimestamp := Some(s.timestamp)))
    ensures forall lat: real, lon: real ::
      && s.cprLat[0] != 0 && s.cprLat[1] != 0 && s.cprLon[0] != 0 && s.cprLon[1] != 0
      && Utils.AbsDiff(s.cprTime[0], s.cprTime[1]) < 10 && 5 <= tc <= 18
      && Position.CprLocation(s.cprLat, s.cprLon, form, if tc <= 8 then 4 else 1) == Some((lat, lon))
      && -90.0 <= lat <= 90.0 && -180.0 <= lon <= 180.0
      ==> PositionUpdated(s, tc, form) == s.(lat := lat, lon := lon, positionTimestamp := Some(s.timestamp))
  {
  }

  /** A fix within range and an altitude below the ceiling stay so after any message. */
  lemma PlausibleKept(s: State, m: seq<Nibble>, df: nat, relaxed: bool, now: int, d: Decoded)
    requires Fits(m, df) && Plausible(s)
    ensures Plausible(Updated(s, m, df, relaxed, now, d))
  {
    var h := Header(s, m, df, now);
    assert Plausible(h);
    if df == 17 || df == 18 {
      var (tc, st) := MessageType(m);
      ByTypeCodePlausible(h.(lastTypeCode := tc), m, df, tc, st, d);
    }
    CommBKeeps(Extended(h, m, df, d), m, df, relaxed, d);
  }

  lemma ByTypeCodePlausible(s: State, m: seq<Nibble>, df: nat, tc: nat, st: nat, d: Decoded)
    requires |m| >= 22 && Plausible(s)
    ensures Plausible(ByTypeCode(s, m, df, tc, st, d))
  {
    if 5 <= tc <= 8 {
      CprPlausible(s.(groundMovement := d.groundMovement, altitude := None, altitudeSource := '\U{2070}',
                      track := d.groundTrack, trackSource := ' '), m, tc);
    } else if 9 <= tc <= 18 {
      CprPlausible(s.(altitude := BaroAltitude.AltitudeAsWritten(m, df), altitudeSource := ' ',
                      surveillanceStatus := d.surveillanceStatus), m, tc);
    }
  }

  lemma CprPlausible(s: State, m: seq<Nibble>, tc: nat)
    requires |m| >= 22 && Plausible(s)
    ensures Plausible(CprUpdated(s, m, tc))
  {
    var (form, lat, lon) := Position.Cpr(m).value;
    PositionGate(s.(cprLat := s.cprLat[form := lat], cprLon := s.cprLon[form := lon],
                    cprTime := s.cprTime[form := s.timestamp]), tc, form);
  }

  /**
   * Type code 19 sets the GNSS height to the barometric altitude plus the
   * difference, through `as u32`: below the difference's magnitude the sum
   * is negative and wraps to more than 4 billion feet.
   */
  lemma VelocityGnss(s: State, m: seq<Nibble>, st: nat, d: Decoded)
    requires |m| >= 22 && Plausible(s)
    ensures var t := Velocity(s, m, st, d);
      var delta := Delta.AltitudeDelta(m);
      && t.altitudeGnss == (if s.altitude.Some? && delta.Some? then Some(Wrap32(s.altitude.value + delta.value)) else s.altitudeGnss)
      && (s.altitude.Some? && delta.Some? && s.altitude.value + delta.value < 0 ==>
            t.altitudeGnss.value >= 0x1_0000_0000 - 3175)
      && (s.altitude.Some? && delta.Some? && s.altitude.value + delta.value >= 0 ==>
            t.altitudeGnss.value == s.altitude.value + delta.value)
  {
  }

  /**
   * The aircraft.  Its fields live in one `State` record, which each method
   * updates field by field as the source assigns them.
   */
  class Plane {
    var state: State

    /** `Plane::new`. */
    constructor (now: int)
      ensures state == Initial(now) && Blank(state) && Plausible(state)
    {
      state := Initial(now);
    }

    /**
     * `from_message`: a new aircraft with its address and registration
     * prefix, after exactly one `update`.
     */
    static method FromMessage(m: seq<Nibble>, df: nat, icao: nat, reg: string, relaxed: bool, now: int, d: Decoded)
      returns (p: Plane)
      requires Fits(m, df)
      ensures fresh(p)
      ensures p.state == Updated(Initial(now).(icao := icao, reg := reg), m, df, relaxed, now, d)
    {
      p := new Plane(now);
      p.state := p.state.(icao := icao);
      p.state := p.state.(reg := reg);
      p.Update(m, df, relaxed, now, d);
    }

    /** `update_position`. */
    method UpdatePosition(tc: nat, form: nat)
      requires form <= 1
      modifies this
      ensures state == PositionUpdated(old(state), tc, form)
    {
      var s := state;
      if s.cprLat[0] != 0 && s.cprLat[1] != 0 && s.cprLon[0] != 0 && s.cprLon[1] != 0
         && Utils.AbsDiff(s.cprTime[0], s.cprTime[1]) < 10
      {
        var fix :=
          if 5 <= tc <= 8 then Position.CprLocation(s.cprLat, s.cprLon, form, 4)
          else if 9 <= tc <= 18 then Position.CprLocation(s.cprLat, s.cprLon, form, 1)
          else None;
        if fix.Some? {
          var (lat, lon) := fix.value;
          if -90.0 <= lat <= 90.0 && -180.0 <= lon <= 180.0 {
            state := state.(lat := lat);
            state := state.(lon := lon);
            state := state.(positionTimestamp := Some(state.timestamp));
          }
        }
      }
    }

    /** `update_cpr`. */
    method UpdateCpr(m: seq<Nibble>, tc: nat)
      requires |m| >= 22
      modifies this
      ensures state == CprUpdated(old(state), m, tc)
    {
      var (form, lat, lon) := Position.Cpr(m).value;
      if form <= 1 {
        state := state.(cprLat := state.cprLat[form := lat]);
        state := state.(cprLon := state.cprLon[form := lon]);
        state := state.(cprTime := state.cprTime[form := state.timestamp]);
        UpdatePosition(tc, form);
      }
    }

    /** `update_from_ext_1_4`. */
    method UpdateFromExt14(m: seq<Nibble>, tc: nat, st: nat)
      requires |m| >= 22
      modifies this
      ensures state == FromExt14(old(state), m, tc, st)
    {
      state := state.(ais := Ais.Ais(m));
      state := state.(category := (tc, st));
    }

    /** `update_from_ext_5_8`. */
    method UpdateFromExt58(m: seq<Nibble>, tc: nat, d: Decoded)
      requires |m| >= 22
      modifies this
      ensures state == FromExt58(old(state), m, tc, d)
    {
      state := state.(groundMovement := d.groundMovement);
      state := state.(altitude := None);
      state := state.(altitudeSource := '\U{2070}');
      state := state.(track := d.groundTrack);
      state := state.(trackSource := ' ');
      UpdateCpr(m, tc);
    }

    /** `update_from_ext_9_18`. */
    method UpdateFromExt918(m: seq<Nibble>, tc: nat, df: nat, d: Decoded)
      requires |m| >= 22
      modifies this
      ensures state == FromExt918(old(state), m, tc, df, d)
    {
      state := state.(altitude := BaroAltitude.AltitudeAsWritten(m, df));
      state := state.(altitudeSource := ' ');
      state := state.(surveillanceStatus := d.surveillanceStatus);
      UpdateCpr(m, tc);
    }

    /** `update`: the header fields, the extended squitter, then the Comm-B field. */
    method Update(m: seq<Nibble>, df: nat, relaxed: bool, now: int, d: Decoded)
      requires Fits(m, df)
      modifies this
      ensures state == Updated(old(state), m, df, relaxed, now, d)
    {
      UpdateHeader(m, df, now);
      UpdateExtended(m, df, d);
      var bds := UpdateCommB(m, df, relaxed, d);
    }

    /** Lines 41-54 of `update`. */
    method UpdateHeader(m: seq<Nibble>, df: nat, now: int)
      requires Fits(m, df)
      modifies this
      ensures state == Header(old(state), m, df, now)
    {
      state := state.(timestamp := now);
      state := state.(lastDf := df);
      if df == 4 || df == 20 {
        state := state.(altitude := BaroAltitude.AltitudeAsWritten(m, df));
        state := state.(altitudeSource := ' ');
      }
      if df == 5 || df == 21 {
        state := state.(squawk := Squawk.Squawk(m));
      }
      if df == 11 || df == 17 {
        state := state.(capability := (Utils.Ca(m), state.capability.1));
      }
    }

    /** Lines 55-106 of `update`. */
    method UpdateExtended(m: seq<Nibble>, df: nat, d: Decoded)
      requires Fits(m, df)
      modifies this
      ensures state == Extended(old(state), m, df, d)
    {
      if df == 17 || df == 18 {
        var (tc, st) := MessageType(m);
        state := state.(lastTypeCode := tc);
        UpdateByTypeCode(m, df, tc, st, d);
      }
    }

    /** Lines 59-105 of `update`: the `match` on the type code. */
    method UpdateByTypeCode(m: seq<Nibble>, df: nat, tc: nat, st: nat, d: Decoded)
      requires |m| >= 22
      modifies this
      ensures state == ByTypeCode(old(state), m, df, tc, st, d)
    {
      if 1 <= tc <= 4 {
        UpdateFromExt14(m, tc, st);
      } else if 5 <= tc <= 8 {
        UpdateFromExt58(m, tc, d);
      } else if 9 <= tc <= 18 {
        UpdateFromExt918(m, tc, df, d);
      } else if tc == 19 {
        UpdateVelocity(m, st, d);
      } else if 20 <= tc <= 22 {
        state := state.(altitudeGnss := d.altitudeGnss);
        state := state.(surveillanceStatus := d.surveillanceStatus);
      } else if tc == 31 {
        state := state.(adsbVersion := d.version);
      }
    }

    /** Lines 69-96 of `update`: type code 19. */
    method UpdateVelocity(m: seq<Nibble>, st: nat, d: Decoded)
      requires |m| >= 22
      modifies this
      ensures state == Velocity(old(state), m, st, d)
    {
      state := state.(vrate := d.verticalRate);
      state := state.(vrateSource := ' ');
      if state.altitude.Some? {
        var delta := Delta.AltitudeDelta(m);
        if delta.Some? {
          state := state.(altitudeGnss := Some(Wrap32(state.altitude.value + delta.value)));
        }
      }
      if st == 1 {
        state := state.(track := d.subsonic.0, grspeed := d.subsonic.1);
        state := state.(trackSource := '\U{2081}');
      } else if st == 2 {
        state := state.(track := d.supersonic.0, grspeed := d.supersonic.1);
        state := state.(trackSource := '\U{2082}');
      } else if st == 3 || st == 4 {
        state := state.(heading := d.heading);
        state := state.(headingSource := '\U{2083}');
        state := state.(altitudeSource := '"');
      }
    }

    /**
     * Lines 107-209 of `update`, returning the register the local `bds`
     * settled on: at most one of BDS 1,7, 4,0, 5,0, 6,0 and 4,4 is applied.
     */
    method UpdateCommB(m: seq<Nibble>, df: nat, relaxed: bool, d: Decoded) returns (bds: (nat, nat))
      requires Fits(m, df)
      modifies this
      ensures (state, bds) == CommBUpdate(old(state), m, df, relaxed, d)
    {
      bds := (0, 0);
      if (relaxed || state.capability.0 > 3) && (df == 20 || df == 21) {
        bds := CommB.PrefixBds(m);
        if bds == (2, 0) {
          state := state.(ais := Ais.Ais(m));
        }
        if bds == (3, 0) {
          state := state.(threatEncounter := ThreatEncounter(m));
        }
        bds := TryBds17(bds, d);
        bds := TryBds40(bds, relaxed, d);
        bds := TryBds50(bds, relaxed, d);
        bds := TryBds60(bds, relaxed, d);
        bds := TryBds44(bds, m);
        if bds == (4, 5) {
          state := state.(temperature := d.bds45);
        }
      }
    }
    /** Lines 115-132 of `update`: BDS 1,7. */
    method TryBds17(bds0: (nat, nat), d: Decoded) returns (bds: (nat, nat))
      modifies this
      ensures (state, bds) == Step17(old(state), bds0, d)
    {
      bds := bds0;
      if bds == (0, 0) && d.bds17.Some? {
        state := state.(capability := (state.capability.0, d.bds17.value));
        bds := (1, 7);
      }
    }

    /** Lines 133-156 of `update`: BDS 4,0. */
    method TryBds40(bds0: (nat, nat), relaxed: bool, d: Decoded) returns (bds: (nat, nat))
      modifies this
      ensures (state, bds) == Step40(old(state), bds0, relaxed, d)
    {
      bds := bds0;
      if bds == (0, 0) && (relaxed || state.capability.1.bds40) && d.bds40.Some? {
        var v := d.bds40.value;
        state := state.(selectedAltitude := if v.mcp.Some? then v.mcp else v.fms);
        state := state.(targetAltitudeSource := TargetSource(v.target));
        state := state.(barometricPressureSetting := v.baro);
        bds := (4, 0);
      }
    }

    /** Lines 157-170 of `update`: BDS 5,0. */
    method TryBds50(bds0: (nat, nat), relaxed: bool, d: Decoded) returns (bds: (nat, nat))
      modifies this
      ensures (state, bds) == Step50(old(state), bds0, relaxed, d)
    {
      bds := bds0;
      if bds == (0, 0) && (relaxed || state.capability.1.bds50) && d.bds50.Some? {
        var v := d.bds50.value;
        state := state.(rollAngle := v.roll, track := v.track, trackAngleRate := v.rate);
        state := state.(grspeed := v.groundSpeed, trueAirspeed := v.airspeed);
        state := state.(bds50Timestamp := Some(state.timestamp));
        state := state.(trackSource := '\U{2085}');
        state := state.(trackTimestamp := Some(state.timestamp));
        bds := (5, 0);
      }
    }

    /** Lines 171-191 of `update`: BDS 6,0. */
    method TryBds60(bds0: (nat, nat), relaxed: bool, d: Decoded) returns (bds: (nat, nat))
      modifies this
      ensures (state, bds) == Step60(old(state), bds0, relaxed, d)
    {
      bds := bds0;
      if bds == (0, 0) && (relaxed || state.capability.1.bds60) && d.bds60.Some? {
        var v := d.bds60.value;
        state := state.(heading := v.heading, indicatedAirspeed := v.airspeed, machNumber := v.mach);
        if v.baroRate.Some? {
          state := state.(vrateSource := '\U{2086}', vrate := v.baroRate);
        } else {
          state := state.(vrateSource := '\U{2071}', vrate := v.inertialRate);
        }
        state := state.(headingSource := '\U{2086}');
        state := state.(headingTimestamp := Some(state.timestamp));
        bds := (6, 0);
      }
    }

    /** Lines 192-204 of `update`: BDS 4,4. */
    method TryBds44(bds0: (nat, nat), m: seq<Nibble>) returns (bds: (nat, nat))
      requires |m| >= 22
      modifies this
      ensures (state, bds) == Step44(old(state), bds0, m)
    {
      bds := bds0;
      if bds == (0, 0) {
        var meteo := Bds44.IsBds44(m);
        if meteo.Some? {
          var w := meteo.value;
          state := state.(temperature := w.temp);
          if w.wind.Some? {
            state := state.(wind := w.wind);
          }
          state := state.(humidity := w.humidity, turbulence := w.turbulence, pressure := w.pressure);
          bds := (4, 4);
        }
      }
    }
  }
}
