/**
 * The field decoders of the Comm-B selected vertical intention report,
 * BDS 4,0 (src/decoder/ehs/bds_4_0.rs): the altitudes selected on the mode
 * control panel and in the flight management system, the barometric
 * pressure setting and the source of the target altitude.
 */
module Bds40 {
  import opened Wrappers
  import opened Bits
  import opened Calc

  /** `mcp_selected_altitude`: status bit 33, then bits 34-45 in steps of 16 ft. */
  function McpSelectedAltitude(m: seq<Nibble>): (r: Option<nat>)
    requires |m| >= 12
    ensures r.Some? <==> MsgBit(m, 33) == 1
    ensures r.Some? ==> r.value == 16 * Field(m, 34, 45) && r.value <= 65520
  {
    FlagAndRangeValueNarrow(m, 33, 34, 45);
    Pow2Table();
    var (status, value) := FlagAndRangeValue(m, 33, 34, 45).value;
    if status == 1 then Some(value * 16) else None
  }

  /** `fms_selected_altitude`: status bit 46, then bits 47-58 in steps of 16 ft. */
  function FmsSelectedAltitude(m: seq<Nibble>): (r: Option<nat>)
    requires |m| >= 15
    ensures r.Some? <==> MsgBit(m, 46) == 1
    ensures r.Some? ==> r.value == 16 * Field(m, 47, 58) && r.value <= 65520
  {
    FlagAndRangeValueNarrow(m, 46, 47, 58);
    Pow2Table();
    var (status, value) := FlagAndRangeValue(m, 46, 47, 58).value;
    if status == 1 then Some(value * 16) else None
  }

  /**
   * `barometric_pressure_setting`: bits 60-71 in tenths of a millibar, with
   * 800 mb added only when the status bit 59 is set; never absent.
   */
  function BarometricPressureSetting(m: seq<Nibble>): (r: Option<nat>)
    requires |m| >= 18
    ensures r.Some?
    ensures r.value == Field(m, 60, 71) / 10 + (if MsgBit(m, 59) == 1 then 800 else 0)
    ensures r.value <= 1209
  {
    FlagAndRangeValueNarrow(m, 59, 60, 71);
    Pow2Table();
    var (status, value) := FlagAndRangeValue(m, 59, 60, 71).value;
    if status == 1 then Some(value / 10 + 800) else Some(value / 10)
  }

  /** `target_altitude_source`: status bit 86, then the 2-bit source of bits 87-88. */
  function TargetAltitudeSource(m: seq<Nibble>): (r: Option<nat>)
    requires |m| >= 22
    ensures r.Some? <==> MsgBit(m, 86) == 1
    ensures r.Some? ==> r.value == Field(m, 87, 88) && r.value <= 3
  {
    FlagAndRangeValueNarrow(m, 86, 87, 88);
    Pow2Table();
    var (status, value) := FlagAndRangeValue(m, 86, 87, 88).value;
    if status == 1 then Some(value) else None
  }

  /**
   * "A80004BAACF6427180000078379E" and "A80004BAACF64270A800007814EC": nibbles
   * 8-11 are A, C, F, 6, an MCP altitude of 23008 ft.
   */
  lemma McpVector1(m: seq<Nibble>)
    requires |m| >= 22 && m[8] == 10 && m[9] == 12 && m[10] == 15 && m[11] == 6
    ensures McpSelectedAltitude(m) == Some(23008)
  {
    assert MsgBit(m, 33) == 1 by {
      MsgBitInNibble(m, 8, 0);
      Pow2Small();
    }
    assert Field(m, 34, 45) == 1438 by {
      McpNibbles(m, 10, 12, 15, 6);
    }
    McpOf(m, 1438);
  }

  /** "A80004BAB8AE4270A80000823C66": nibbles 8-11 are B, 8, A, E, an MCP altitude of 29008 ft. */
  lemma McpVector2(m: seq<Nibble>)
    requires |m| >= 22 && m[8] == 11 && m[9] == 8 && m[10] == 10 && m[11] == 14
    ensures McpSelectedAltitude(m) == Some(29008)
  {
    assert MsgBit(m, 33) == 1 by {
      MsgBitInNibble(m, 8, 0);
      Pow2Small();
    }
    assert Field(m, 34, 45) == 1813 by {
      McpNibbles(m, 11, 8, 10, 14);
    }
    McpOf(m, 1813);
  }

  /** The first two vectors: nibbles 11-14 are 6, 4, 2, 7, an FMS altitude of 37008 ft. */
  lemma FmsVector1(m: seq<Nibble>)
    requires |m| >= 22 && m[11] == 6 && m[12] == 4 && m[13] == 2 && m[14] == 7
    ensures FmsSelectedAltitude(m) == Some(37008)
  {
    assert MsgBit(m, 46) == 1 by {
      MsgBitInNibble(m, 11, 1);
      Pow2Small();
    }
    assert Field(m, 47, 58) == 2313 by {
      FmsNibbles(m, 6, 4, 2, 7);
    }
    FmsOf(m, 2313);
  }

  /** The third vector: nibbles 11-14 are E, 4, 2, 7, again an FMS altitude of 37008 ft. */
  lemma FmsVector2(m: seq<Nibble>)
    requires |m| >= 22 && m[11] == 14 && m[12] == 4 && m[13] == 2 && m[14] == 7
    ensures FmsSelectedAltitude(m) == Some(37008)
  {
    assert MsgBit(m, 46) == 1 by {
      MsgBitInNibble(m, 11, 1);
      Pow2Small();
    }
    assert Field(m, 47, 58) == 2313 by {
      FmsNibbles(m, 14, 4, 2, 7);
    }
    FmsOf(m, 2313);
  }

  /** The decoder's answer from the status bit and the field. */
  lemma McpOf(m: seq<Nibble>, f: nat)
    requires |m| >= 22 && MsgBit(m, 33) == 1 && Field(m, 34, 45) == f
    ensures McpSelectedAltitude(m) == Some(16 * f)
  {
  }

  lemma FmsOf(m: seq<Nibble>, f: nat)
    requires |m| >= 22 && MsgBit(m, 46) == 1 && Field(m, 47, 58) == f
    ensures FmsSelectedAltitude(m) == Some(16 * f)
  {
  }

  /** The MCP field of given nibbles 8-11. */
  lemma McpNibbles(m: seq<Nibble>, a: int, b: int, c: int, d: int)
    requires |m| >= 22 && m[8] == a && m[9] == b && m[10] == c && m[11] == d
    ensures Field(m, 34, 45) == ((a % 8) * 256 + b * 16 + c) * 2 + d / 8
  {
    McpBits(m);
  }

  /** The FMS field of given nibbles 11-14. */
  lemma FmsNibbles(m: seq<Nibble>, a: int, b: int, c: int, d: int)
    requires |m| >= 22 && m[11] == a && m[12] == b && m[13] == c && m[14] == d
    ensures Field(m, 47, 58) == ((a % 4) * 256 + b * 16 + c) * 4 + d / 4
  {
    FmsBits(m);
  }

  /** The MCP field of nibbles 8-11: bit 33 is the status, then three bits, two nibbles and one bit. */
  lemma McpBits(m: seq<Nibble>)
    requires |m| >= 22
    ensures MsgBit(m, 33) == m[8] / 8 % 2
    ensures Field(m, 34, 45) == ((m[8] as int % 8) * 256 + m[9] as int * 16 + m[10]) * 2 + m[11] as int / 8
  {
    assert MsgBit(m, 33) == m[8] / 8 % 2 by {
      MsgBitInNibble(m, 8, 0);
      Pow2Small();
    }
    assert Field(m, 34, 36) == m[8] % 8 by {
      FieldNibbleHead(m, 8, 1);
      Pow2Small();
    }
    assert Field(m, 34, 40) == Field(m, 34, 36) * 16 + m[9] as int by {
      FieldNextNibble(m, 34, 9);
    }
    assert Field(m, 34, 44) == Field(m, 34, 40) * 16 + m[10] by {
      FieldNextNibble(m, 34, 10);
    }
    assert Field(m, 34, 45) == Field(m, 34, 44) * 2 + m[11] / 8 by {
      FieldSplit(m, 34, 44, 45);
      FieldNibbleTail(m, 11, 0);
      Pow2Small();
    }
  }

  /** The FMS field of nibbles 11-14: bit 46 is the status, then two bits, two nibbles and two bits. */
  lemma FmsBits(m: seq<Nibble>)
    requires |m| >= 22
    ensures MsgBit(m, 46) == m[11] / 4 % 2
    ensures Field(m, 47, 58) == ((m[11] as int % 4) * 256 + m[12] as int * 16 + m[13]) * 4 + m[14] as int / 4
  {
    assert MsgBit(m, 46) == m[11] / 4 % 2 by {
      MsgBitInNibble(m, 11, 1);
      Pow2Small();
    }
    assert Field(m, 47, 48) == m[11] % 4 by {
      FieldNibbleHead(m, 11, 2);
      Pow2Small();
    }
    assert Field(m, 47, 52) == Field(m, 47, 48) * 16 + m[12] as int by {
      FieldNextNibble(m, 47, 12);
    }
    assert Field(m, 47, 56) == Field(m, 47, 52) * 16 + m[13] by {
      FieldNextNibble(m, 47, 13);
    }
    assert Field(m, 47, 58) == Field(m, 47, 56) * 4 + m[14] / 4 by {
      FieldSplit(m, 47, 56, 58);
      FieldNibbleTail(m, 14, 1);
      Pow2Small();
    }
  }
}
