/**
 * The difference between GNSS and barometric altitude carried in an airborne
 * velocity squitter (src/adsb/altitude/delta.rs): a sign bit (81) and a 7-bit
 * count of 25-ft steps (bits 82-88).
 */
module Delta {
  import opened Wrappers
  import opened Bits
  import opened Calc

  /**
   * `delta`: the signed difference in feet.  Its magnitude is 25 ft a step, and
   * it is negative exactly when sign is 1 and the count is non-zero.
   */
  function Delta(sign: nat, value: nat): (d: int)
    ensures d % 25 == 0
    ensures d < 0 <==> sign == 1 && value > 0
    ensures d == 25 * value || d == -25 * value
    ensures d * d == 625 * value * value
  {
    if sign == 1 then -(value as int) * 25 else value as int * 25
  }

  /**
   * `altitude_delta`: only a non-zero count with the sign bit set is kept, so
   * the difference is always a negative multiple of 25 ft, at most 127 steps.
   * The filter leaves the positive arm of `Delta` unreachable: a GNSS height
   * above the barometric one (sign bit clear) is dropped, never reported.
   */
  function AltitudeDelta(m: seq<Nibble>): (r: Option<int>)
    requires |m| >= 22
    ensures r.Some? <==> MsgBit(m, 81) == 1 && Field(m, 82, 88) != 0
    ensures r.Some? ==> r.value == -25 * Field(m, 82, 88)
    ensures r.Some? ==> -3175 <= r.value <= -25
  {
    FlagAndRangeValueNarrow(m, 81, 82, 88);
    Pow2Table();
    var (sign, value) := FlagAndRangeValue(m, 81, 82, 88).value;
    if sign == 1 && value != 0 then Some(Delta(sign, value)) else None
  }

  /** A count of 4 below: nibbles 20 and 21 = 8, 4 give sign 1 and count 4, i.e. -100 ft. */
  lemma AltitudeDeltaVector(m: seq<Nibble>)
    requires |m| >= 22 && m[20] == 8 && m[21] == 4
    ensures AltitudeDelta(m) == Some(-100)
  {
    MsgBitInNibble(m, 20, 0);
    FieldNextNibble(m, 82, 21);
    FieldNibbleHead(m, 20, 1);
    Pow2Small();
  }
}
