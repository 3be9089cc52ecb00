/**
 * Compact Position Reporting (src/decoder/adsb/position.rs): the encoded
 * format, latitude and longitude of a position squitter, and the global
 * decode of an even/odd pair (section A.1.7 of RTCA DO-260B).  The arithmetic
 * is over exact reals; the source's `f64` rounding is not modelled.
 */
module Position {
  import opened Wrappers
  import opened Bits
  import opened Calc
  import opened Utils

  /** The number of encoded positions in a zone, 2^17, as a real. */
  const Div: real := 131072.0

  /**
   * `cpr`: the format bit (54, 0 even, 1 odd) with the 17-bit encoded latitude
   * (bits 55-71) and longitude (bits 72-88).  Both extractions are of
   * non-empty spans, so the result is always `Some`.
   */
  function Cpr(m: seq<Nibble>): (r: Option<(nat, nat, nat)>)
    requires |m| >= 22
    ensures r.Some?
    ensures r.value == (MsgBit(m, 54), Field(m, 55, 71), Field(m, 72, 88))
    ensures r.value.0 <= 1 && r.value.1 < 0x2_0000 && r.value.2 < 0x2_0000
  {
    FlagAndRangeValueNarrow(m, 54, 55, 71);
    FlagAndRangeValueNarrow(m, 0, 72, 88);
    Pow2Table();
    assert Pow2(17) == 2 * Pow2(16);
    var (form, lat) := FlagAndRangeValue(m, 54, 55, 71).value;
    var lon := FlagAndRangeValue(m, 0, 72, 88).value.1;
    Some((form, lat, lon))
  }

  /** `fixed_lat`: a latitude at or beyond +-90 degrees is moved by a full turn. */
  function FixedLat(lat: real): (r: real)
    ensures lat >= 90.0 ==> r == lat - 360.0
    ensures lat <= -90.0 ==> r == lat + 360.0
    ensures -90.0 < lat < 90.0 ==> r == lat
  {
    if lat >= 90.0 then lat - 360.0
    else if lat <= -90.0 then lat + 360.0
    else lat
  }

  /** `signed_lon`: a longitude at or beyond +-180 degrees is moved by a full turn. */
  function SignedLon(lon: real): (r: real)
    ensures lon >= 180.0 ==> r == lon - 360.0
    ensures lon <= -180.0 ==> r == lon + 360.0
    ensures -180.0 < lon < 180.0 ==> r == lon
    ensures 0.0 <= lon < 360.0 ==> -180.0 <= r < 180.0
  {
    if lon >= 180.0 then lon - 360.0
    else if lon <= -180.0 then lon + 360.0
    else lon
  }

  /** The number of entries in the zone-count table. */
  const NlCount: nat := 58

  /**
   * The latitude boundaries of the longitude-zone counts, in the source's
   * order: below the first boundary there are 59 zones, and each later
   * boundary has one zone fewer.
   */
  function NlEntry(i: nat): (real, int)
    requires i < NlCount
  {
    match i
    case 0 => (10.47047130, 59)
    case 1 => (14.82817437, 58)
    case 2 => (18.18626357, 57)
    case 3 => (21.02939493, 56)
    case 4 => (23.54504487, 55)
    case 5 => (25.82924707, 54)
    case 6 => (27.93898710, 53)
    case 7 => (29.91135686, 52)
    case 8 => (31.77209708, 51)
    case 9 => (33.53993436, 50)
    case 10 => (35.22899598, 49)
    case 11 => (36.85025108, 48)
    case 12 => (38.41241892, 47)
    case 13 => (39.92256684, 46)
    case 14 => (41.38651832, 45)
    case 15 => (42.80914012, 44)
    case 16 => (44.19454951, 43)
    case 17 => (45.54626723, 42)
    case 18 => (46.86733252, 41)
    case 19 => (48.16039128, 40)
    case 20 => (49.42776439, 39)
    case 21 => (50.67150166, 38)
    case 22 => (51.89342469, 37)
    case 23 => (53.09516153, 36)
    case 24 => (54.27817472, 35)
    case 25 => (55.44378444, 34)
    case 26 => (56.59318756, 33)
    case 27 => (57.72747354, 32)
    case 28 => (58.84763776, 31)
    case 29 => (59.95459277, 30)
    case 30 => (61.04917774, 29)
    case 31 => (62.13216659, 28)
    case 32 => (63.20427479, 27)
    case 33 => (64.26616523, 26)
    case 34 => (65.31845310, 25)
    case 35 => (66.36171008, 24)
    case 36 => (67.39646774, 23)
    case 37 => (68.42322022, 22)
    case 38 => (69.44242631, 21)
    case 39 => (70.45451075, 20)
    case 40 => (71.45986473, 19)
    case 41 => (72.45884545, 18)
    case 42 => (73.45177442, 17)
    case 43 => (74.43893416, 16)
    case 44 => (75.42056257, 15)
    case 45 => (76.39684391, 14)
    case 46 => (77.36789461, 13)
    case 47 => (78.33374083, 12)
    case 48 => (79.29428225, 11)
    case 49 => (80.24923213, 10)
    case 50 => (81.19801349, 9)
    case 51 => (82.13956981, 8)
    case 52 => (83.07199445, 7)
    case 53 => (83.99173563, 6)
    case 54 => (84.89166191, 5)
    case 55 => (85.75541621, 4)
    case 56 => (86.53536998, 3)
    case _ => (87.00000000, 2)
  }

  /**
   * Entry i holds 59 - i zones, its boundary is below the next one and no
   * boundary lies beyond 87 degrees.
   */
  predicate Step(i: nat)
    requires i < NlCount
  {
    NlEntry(i).1 == 59 - i && NlEntry(i).0 <= 87.0 &&
    (i + 1 == NlCount || NlEntry(i).0 < NlEntry(i + 1).0)
  }

  lemma StepHolds(i: nat)
    requires i < NlCount
    ensures Step(i)
  {
    if i < 15 {
      StepsFrom0(i);
    } else if i < 29 {
      StepsFrom15(i);
    } else if i < 43 {
      StepsFrom29(i);
    } else {
      StepsFrom43(i);
    }
  }

  lemma StepsFrom0(i: nat)
    requires i < 15
    ensures Step(i)
  {
  }

  lemma StepsFrom15(i: nat)
    requires 15 <= i < 29
    ensures Step(i)
  {
  }

  lemma StepsFrom29(i: nat)
    requires 29 <= i < 43
    ensures Step(i)
  {
  }

  lemma StepsFrom43(i: nat)
    requires 43 <= i < NlCount
    ensures Step(i)
  {
  }

  /** The table as the sequence the scan walks. */
  function NlTable(): (t: seq<(real, int)>)
    ensures |t| == NlCount
    ensures forall k :: 0 <= k < NlCount ==> t[k] == NlEntry(k)
  {
    seq(NlCount, k requires 0 <= k < NlCount => NlEntry(k))
  }

  /** Every entry of the table keeps to Step. */
  predicate Shaped(t: seq<(real, int)>)
  {
    forall k :: 0 <= k < |t| ==> t[k].1 == 59 - k && t[k].0 <= 87.0
  }

  lemma NlTableShaped()
    ensures Shaped(NlTable())
  {
    var t := NlTable();
    forall k | 0 <= k < |t|
      ensures t[k].1 == 59 - k && t[k].0 <= 87.0
    {
      StepHolds(k);
    }
  }

  /** The scan from entry i on: the zones of the first boundary above lat, else 1. */
  function NlScan(t: seq<(real, int)>, lat: real, i: nat): (r: int)
    requires i <= |t|
    decreases |t| - i
  {
    if i == |t| then 1
    else if lat < t[i].0 then t[i].1
    else NlScan(t, lat, i + 1)
  }

  /** `nl`: the number of longitude zones at a latitude, read from its magnitude. */
  function Nl(lat: real): (r: int)
    ensures 1 <= r <= 59
  {
    NlTableShaped();
    NlScanRange(NlTable(), RealAbs(lat), 0);
    NlScan(NlTable(), RealAbs(lat), 0)
  }

  function RealAbs(x: real): (r: real)
    ensures r >= 0.0 && (r == x || r == -x)
  {
    if x < 0.0 then -x else x
  }

  /** A scan from entry i finds at most 59 - i zones and at least one. */
  lemma {:induction false} NlScanRange(t: seq<(real, int)>, lat: real, i: nat)
    requires i <= |t| <= 58 && Shaped(t)
    ensures 1 <= NlScan(t, lat, i) <= 59 - i
    decreases |t| - i
  {
    if i < |t| && lat >= t[i].0 {
      NlScanRange(t, lat, i + 1);
    }
  }

  /** The zone count depends only on the magnitude of the latitude. */
  lemma NlSymmetric(lat: real)
    ensures Nl(-lat) == Nl(lat)
  {
    assert RealAbs(-lat) == RealAbs(lat);
  }

  /** The zone count does not grow as the latitude moves towards a pole. */
  lemma NlMonotone(a: real, b: real)
    requires RealAbs(a) <= RealAbs(b)
    ensures Nl(b) <= Nl(a)
  {
    NlTableShaped();
    NlScanMonotone(NlTable(), RealAbs(a), RealAbs(b), 0);
  }

  lemma {:induction false} NlScanMonotone(t: seq<(real, int)>, a: real, b: real, i: nat)
    requires a <= b && i <= |t| <= 58 && Shaped(t)
    ensures NlScan(t, b, i) <= NlScan(t, a, i)
    decreases |t| - i
  {
    if i < |t| && b >= t[i].0 {
      if a < t[i].0 {
        NlScanRange(t, b, i + 1);
      } else {
        NlScanMonotone(t, a, b, i + 1);
      }
    }
  }

  /** Near the equator there are 59 zones, and from 87 degrees on only one. */
  lemma NlExtremes(lat: real)
    ensures -10.0 <= lat <= 10.0 ==> Nl(lat) == 59
    ensures (lat >= 87.0 || lat <= -87.0) ==> Nl(lat) == 1
  {
    var x := RealAbs(lat);
    var t := NlTable();
    NlTableShaped();
    if x >= 87.0 {
      NlBeyondLast(t, x, 0);
    } else if x <= 10.0 {
      assert t[0] == NlEntry(0) == (10.47047130, 59);
    }
  }

  lemma {:induction false} NlBeyondLast(t: seq<(real, int)>, lat: real, i: nat)
    requires i <= |t| && Shaped(t) && lat >= 87.0
    ensures NlScan(t, lat, i) == 1
    decreases |t| - i
  {
    if i < |t| {
      NlBeyondLast(t, lat, i + 1);
    }
  }

  /**
   * The zone counts for the chosen format: the odd format (1) uses one zone
   * fewer than NL/coeff, the even format NL/coeff, never fewer than one zone;
   * coeff is 4 for a surface position and 1 for an airborne one.
   */
  function Zones(nl0: int, nl1: int, form: nat, coeff: int): (z: (int, int))
    requires coeff > 0
    ensures z.0 >= 1
    ensures form == 1 ==> z.1 == nl1 / coeff && z.0 == Max(z.1 - 1, 1)
    ensures form != 1 ==> z.1 == nl0 / coeff && z.0 == Max(z.1, 1)
  {
    if form == 1 then (Max(nl1 / coeff - 1, 1), nl1 / coeff)
    else (Max(nl0 / coeff, 1), nl0 / coeff)
  }

  function Max(a: int, b: int): int
  {
    if a < b then b else a
  }

  /**
   * The two candidate latitudes of an even/odd pair: the latitude index j,
   * then the zone offset (Rust's `%` on `f64`, which truncates) plus the
   * encoded fraction, in zones of 6 and 360/59 degrees.
   */
  function CandidateLats(cprLat: seq<nat>): (r: (real, real))
    requires |cprLat| == 2
  {
    var j := ((59.0 * cprLat[0] as real - 60.0 * cprLat[1] as real) / Div + 0.5).Floor;
    (FixedLat(6.0 * (TruncRem(j, 60) as real + cprLat[0] as real / Div)),
     FixedLat((360.0 / 59.0) * (TruncRem(j, 59) as real + cprLat[1] as real / Div)))
  }

  /**
   * `cpr_location`: the global decode of the pair.  `None` exactly when the
   * two candidate latitudes fall in bands of different zone counts; otherwise
   * the latitude of the given format and a longitude in [-180, 180) whenever
   * the encoded longitudes are 17-bit values.  `pmod(m, ni)` is `m % ni`, the
   * two agreeing for the positive ni (Utils.Pmod).
   */
  function CprLocation(cprLat: seq<nat>, cprLon: seq<nat>, form: nat, coeff: int): (r: Option<(real, real)>)
    requires |cprLat| == 2 && |cprLon| == 2 && form <= 1 && coeff > 0
    ensures var (lat0, lat1) := CandidateLats(cprLat); r.None? <==> Nl(lat0) != Nl(lat1)
    ensures r.Some? ==> r.value.0 == (if form == 1 then CandidateLats(cprLat).1 else CandidateLats(cprLat).0)
    ensures r.Some? && cprLon[form] < 0x2_0000 ==> -180.0 <= r.value.1 < 180.0
  {
    var (lat0, lat1) := CandidateLats(cprLat);
    var nl0, nl1 := Nl(lat0), Nl(lat1);
    if nl0 == nl1 then
      var (ni, nlt) := Zones(nl0, nl1, form, coeff);
      Some((if form == 1 then lat1 else lat0, SignedLon(GlobalLon(cprLon, form, ni, nlt))))
    else
      None
  }

  /**
   * The longitude before `signed_lon`: the zone index m from the pair, taken
   * modulo ni, plus the encoded fraction of the given format, in zones of
   * 360/ni degrees.  It lies within one turn east of 0.
   */
  function GlobalLon(cprLon: seq<nat>, form: nat, ni: int, nlt: int): (lon: real)
    requires |cprLon| == 2 && form <= 1 && ni >= 1
    ensures 0.0 <= lon
    ensures cprLon[form] < 0x2_0000 ==> lon < 360.0
  {
    var m := ((cprLon[0] as real * (nlt - 1) as real - cprLon[1] as real * nlt as real) / Div + 0.5).Floor;
    var f := cprLon[form] as real / Div;
    LonInTurn(ni, m % ni, f);
    (360.0 / ni as real) * ((m % ni) as real + f)
  }

  /** Zone p of ni plus a fraction of a zone lies within one turn. */
  lemma LonInTurn(ni: int, p: int, f: real)
    requires ni >= 1 && 0 <= p < ni
    ensures f >= 0.0 ==> 0.0 <= (360.0 / ni as real) * (p as real + f)
    ensures 0.0 <= f < 1.0 ==> (360.0 / ni as real) * (p as real + f) < 360.0
  {
    var w := 360.0 / ni as real;
    assert w > 0.0;
    assert w * ni as real == 360.0;
    if 0.0 <= f < 1.0 {
      assert p as real + f < ni as real;
      assert w * (p as real + f) < w * ni as real;
    }
  }
}
