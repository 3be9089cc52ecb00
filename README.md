# Mode S / ADS-B squitter decoder, modelled in Dafny

This project models the core of `squitterrator`, a decoder for Mode S replies
and ADS-B extended squitters (ICAO Annex 10 Volume IV, RTCA DO-260B and ICAO
Doc 9871 for the Comm-B registers). A receiver hands the decoder one line of
hexadecimal text per frame. The decoder:

- cleans the line down to a 56-bit (14-nibble) or 112-bit (28-nibble) frame
  and turns it into a buffer of 4-bit nibbles;
- computes the 24-bit CRC parity and recovers the aircraft address, which
  most reply formats overlay on the parity;
- reads the integer fields: the Mode A/C code, the squawk, the barometric
  altitude (Gray/Gillham, 25-ft and metric encodings), the GNSS-minus-baro
  difference, the IA5 callsign, the CPR position fields, and the Comm-B
  register fields for BDS 4,0, 4,4, 5,0 and 6,0;
- classifies a Comm-B reply by a first-match cascade of plausibility tests;
- folds each frame into the per-aircraft state. This covers the header
  fields, the even/odd CPR slots and the global CPR decode, which is gated
  on both slots being filled less than 10 s apart and commits only a fix in
  range.

Bits are numbered from 1 at the most significant bit of the frame, as in the
standard. `Bits.Field(m, sb, eb)` is the independent reading of bits sb..eb
of a nibble buffer, and `Bits.MsgBit` reads one bit. Every extractor of the
source is proved against these two.

The modules follow the source files:

| module | file | source |
|---|---|---|
| `Bits` | bits.dfy | bit numbering shared by all decoders |
| `Calc` | calc.dfy | src/adsb/calc.rs |
| `Format` | format.dfy | src/adsb/format.rs |
| `Utils` | utils.dfy | src/adsb/utils.rs |
| `Crc`, `CrcVectors` | crc.dfy, crc_vectors.dfy | src/adsb/crc.rs |
| `FrameCheck` | parity.dfy | the parity check `message` intends |
| `Icao`, `IcaoVectors` | icao.dfy, icao_vectors.dfy | src/adsb/icao.rs |
| `MaCode`, `MeCode`, `Squawk` | ma_code.dfy, me_code.dfy, squawk.dfy | src/adsb/ma_code.rs, me_code.rs, squawk.rs |
| `Gray` | graytobin.dfy | src/adsb/altitude/graytobin.rs |
| `BaroAltitude` | altitude.dfy | src/decoder/adsb/altitude/mod.rs |
| `Delta` | delta.dfy | src/adsb/altitude/delta.rs |
| `Ais` | ais.dfy | src/adsb/ais.rs |
| `Position` | position.dfy | src/decoder/adsb/position.rs |
| `CommB` | bds.dfy | src/adsb/bds/mod.rs and src/decoder/bds/mod.rs |
| `Bds50`, `Ehs50`, `Ehs60`, `Bds40` | bds50.dfy, ehs50.dfy, ehs60.dfy, bds40.dfy | src/adsb/bds/bds_5_0.rs, src/adsb/ehs/bds_5_0.rs, src/adsb/ehs/bds_6_0.rs, src/decoder/ehs/bds_4_0.rs |
| `MeteoFields`, `Bds44` | meteo.dfy, bds44.dfy | src/adsb/meteo/mod.rs, src/decoder/bds/bds_4_4/mod.rs |
| `Aircraft` | plane.dfy | src/decoder/plane/mod.rs, update.rs, update_position.rs |

The per-aircraft state is a `class Plane` with one field `state`. Its
methods assign the fields one by one, as the source's `&mut self` methods
do. Each method is proved to leave exactly the state that a specification
function gives (`Updated`, `Header`, `Extended`, `CprUpdated`,
`PositionUpdated`, `CommBUpdate`, …). The lemmas beside them state what the
source promises about those functions.
The aircraft state takes its barometric altitude from the as-written
decoder `BaroAltitude.AltitudeAsWritten`, because `update` calls
`decoder::altitude`. The corrected decoder `BaroAltitude.Altitude` stands
beside it as the intended half of the "## Findings" rows, and the aircraft
state does not use it.

## Model

| member | source | states |
|---|---|---|
| Calc.FlagAndRangeValue | src/adsb/calc.rs:1-38 | None exactly when the end bit precedes the start bit; the flag is 0 for flag argument 0 and otherwise the flag bit of the frame |
| Calc.FlagAndRangeValueReadsField | src/adsb/calc.rs:13-28 | the value read is bits sb..eb of the frame, most significant first, modulo 2^32 (the u32 accumulator of the fold) |
| Calc.FlagAndRangeValueNarrow | src/adsb/calc.rs:1-38 | for a span of at most 32 bits the value is exactly Field(sb, eb), below 2^(eb-sb+1), and the flag is 0 or the flag bit |
| Calc.FlagAndRangeVector1 | src/adsb/bds/mod.rs:127-133 | a frame whose nibble 7 is 1 and nibbles 8 and 9 are 0 reads flag 1 at bit 32 and value 0 over bits 33..37 |
| Calc.FlagAndRangeVector2 | src/adsb/bds/mod.rs:134-140 | a frame whose nibble 7 is 1 and nibble 8 is 8 reads flag 1 at bit 32 and value 8 over bits 33..36 |
| Calc.BitLocation | src/adsb/calc.rs:40-44 | bit p lies in nibble (p-1)/4 at offset (p-1)%4: offset below 4 and 4*nibble + offset + 1 == p |
| Calc.RangeValue | src/adsb/calc.rs:1-38 | `range_value` as flag_and_range_value with flag 0: the value is Field(sb, eb) and below 2^(eb-sb+1) |
| Calc.RangeValueFits | src/adsb/calc.rs:1-38 | flag_and_range_value with flag 0 over a valid span is Some and carries Field(sb, eb) |
| Format.CleanSquitter | src/adsb/format.rs:30-52 | every Some result is all hexadecimal digits and has 14 or 28 characters |
| Format.CleanByLength | src/adsb/format.rs:44-51 | after filtering: 14 or 28 digits are kept, 26 or 40 lose the first 12, any other length gives None |
| Format.FilterHexKeepsHex | src/adsb/format.rs:31-36 | filtering leaves a string unchanged exactly when it is all hexadecimal digits |
| Format.TrimmedIsFiltered | src/adsb/format.rs:37-41 | the trims after the filter remove nothing, since no hexadecimal digit is whitespace or one of the trimmed characters |
| Format.CleanKeepsFrame | src/adsb/format.rs:45 | a 14- or 28-digit hexadecimal line is returned unchanged |
| Format.CleanDropsHeader | src/adsb/format.rs:46 | a 26- or 40-digit hexadecimal line loses its 12-digit header |
| Format.CleanRejectsOtherLengths | src/adsb/format.rs:47-50 | None exactly when the filtered length is not 14, 26, 28 or 40 |
| Format.CleanIdempotent | src/adsb/format.rs:44-46 | cleaning a cleaned frame returns it unchanged |
| Format.CleanSbsExample | src/adsb/format.rs:23-28 | the documented SBS line "@05FFD0CF…6CF5;" cleans to "8D49329099115719707811B06CF5" |
| Utils.Message | src/adsb/utils.rs:13-35 | Some exactly when cleaning succeeds (the remainder is always 0); the result is the nibbles of the cleaned frame, 14 or 28 of them |
| Utils.ToNibblesOfHexString | src/adsb/utils.rs:17-20 | converting back to hexadecimal and reading again returns the same nibbles |
| Utils.ToNibblesShortExample | src/adsb/utils.rs:124-129 | "02E197B00179C3" reads as [0,2,14,1,9,7,11,0,0,1,7,9,12,3] |
| Utils.Df | src/adsb/utils.rs:46-48 | the downlink format is bits 1-5 of the frame, below 32 |
| Utils.Ca | src/adsb/utils.rs:72-74 | the capability is bits 6-8 of the frame, at most 7 |
| Utils.DfExamples | src/adsb/utils.rs:133-164 | a frame opening 8D is DF 17 with capability 5; one opening A8 is DF 21 |
| Utils.Pmod | src/adsb/utils.rs:96-102 | for y > 0 the result lies in [0, y) and is x mod y; for y < 0 it lies strictly between 2y and -y |
| Utils.TruncRem | src/adsb/utils.rs:97 | Rust's `%`: zero or of the sign of x, and x mod abs(y) shifted down by abs(y) when negative |
| Crc.GetCrc | src/adsb/crc.rs:7-12 | DF 0-15 takes the 56-bit CRC, every other format the 112-bit one |
| Crc.Crc112 | src/adsb/crc.rs:14-38 | the loop of 88 register passes over three 32-bit words leaves the 24-bit parity Crc112Value |
| Crc.ShiftRegister112 | src/adsb/crc.rs:21-34 | n passes of the three-word shift register equal Run112 |
| Crc.Crc56 | src/adsb/crc.rs:40-53 | the loop of 32 register passes over the first word leaves the 24-bit parity Crc56Value |
| Crc.ShiftRegister56 | src/adsb/crc.rs:44-49 | n passes of the one-word shift register equal Run56 |
| Crc.Run56IsRun112WithZeros | src/adsb/crc.rs:14-53 | the short register is the long one with zero words behind the first |
| Crc.Crc56IsPaddedCrc | src/adsb/crc.rs:14-53 | the 56-bit CRC is the 112-bit register run on bits 1-32 followed by zeros |
| Crc.Crc56ReadsFirstWord | src/adsb/crc.rs:40-53 | the 56-bit CRC depends only on bits 1-32 |
| Crc.Crc112ReadsBits1To88 | src/adsb/crc.rs:14-38 | the 112-bit CRC depends only on bits 1-88 |
| CrcVectors.Crc112Vector1 | src/adsb/crc.rs:99 | "8D40621D58C382D690C8AC2863A7" has 112-bit CRC 2646951 |
| CrcVectors.Crc112Vector2 | src/adsb/crc.rs:100 | "A0001838300000000000007ADA59" has 112-bit CRC 747097 |
| CrcVectors.Crc112Vector3 | src/adsb/crc.rs:101 | "A800161110010080E6000073D501" has 112-bit CRC 157953 |
| CrcVectors.Crc112Vector4 | src/adsb/crc.rs:102 | "A800120110010080F600001AFEDD" has 112-bit CRC 5367331 |
| CrcVectors.Crc112Vector5 | src/adsb/crc.rs:103 | "8D71BC009901DC93C0070788AE4B" has 112-bit CRC 8957515 |
| CrcVectors.Crc112Vector6 | src/adsb/crc.rs:104 | "8D71BC0060C386EC2FFDEEEBCE0C" has 112-bit CRC 15453708 |
| CrcVectors.Crc112Vector7 | src/adsb/crc.rs:105 | "8DA7F6429B053D0000000060D7AE" has 112-bit CRC 6346670 |
| CrcVectors.Crc112Vector8 | src/adsb/crc.rs:106 | "8D4B18FE68BF033F523BF5BAAAEB" has 112-bit CRC 12233451 |
| CrcVectors.Crc56Vector1 | src/adsb/crc.rs:120 | "8D40621D58C382D690C8AC2863A7" has 56-bit CRC 974891 |
| CrcVectors.Crc56Vector2 | src/adsb/crc.rs:128 | "02E197B00179C3" has 56-bit CRC 4874557 |
| CrcVectors.Crc56Vector3 | src/adsb/crc.rs:121 | "A0001838300000000000007ADA59" has 56-bit CRC 1050172 |
| CrcVectors.Crc56Vector4 | src/adsb/crc.rs:122 | "A800161110010080E6000073D501" has 56-bit CRC 1711224 |
| CrcVectors.Crc56Vector5 | src/adsb/crc.rs:123 | "A800120110010080F600001AFEDD" has 56-bit CRC 2280096 |
| CrcVectors.Crc56Vector6 | src/adsb/crc.rs:124 | "8D71BC009901DC93C0070788AE4B" has 56-bit CRC 5591534 |
| CrcVectors.Crc56Vector7 | src/adsb/crc.rs:125 | "8D71BC0060C386EC2FFDEEEBCE0C" has 56-bit CRC 5591534 |
| CrcVectors.Crc56Vector8 | src/adsb/crc.rs:126 | "8DA7F6429B053D0000000060D7AE" has 56-bit CRC 14119150 |
| CrcVectors.Crc56Vector9 | src/adsb/crc.rs:127 | "8D4B18FE68BF033F523BF5BAAAEB" has 56-bit CRC 4387321 |
| CrcVectors.Crc56Vector10 | src/adsb/crc.rs:129 | "02E1983866E711" has 56-bit CRC 1530641 |
| Crc.Reminder | src/adsb/crc.rs:65-89 | the in-place XOR division over the byte vector returns 0 for every frame |
| FrameCheck.CheckedMessage | src/adsb/utils.rs:13-35 | the intended `message`: Some exactly when cleaning succeeds and the frame passes the parity test |
| FrameCheck.OnlyOwnParityPasses | src/adsb/crc.rs:65-89 | a DF 11, 17 or 18 frame passes the intended parity test with exactly one parity field: the CRC of the bits before it |
| FrameCheck.OwnParityPasses | src/adsb/crc.rs:141-154 | every frame that carries its own parity passes the intended test |
| Icao.IcaoAddress | src/adsb/icao.rs:27-50 | a Some address is never 0 |
| Icao.IcaoAnnounced | src/adsb/icao.rs:38-49 | for formats without overlay the address is bits 9-32, and None exactly when those are 0 |
| Icao.IcaoUndoesOverlay | src/adsb/icao.rs:30-37 | for DF 0/4/5/16/20/21 the address XOR the CRC gives back the parity field, and None exactly when the two are equal |
| Icao.IcaoRecoversOverlaid | src/adsb/icao.rs:30-49 | a non-zero address overlaid on the CRC is recovered exactly |
| Icao.IcaoFits | src/adsb/icao.rs:27-50 | the address fits in 24 bits |
| Icao.XorCancel | src/adsb/icao.rs:35 | XOR with the same value twice is the identity |
| IcaoVectors.IcaoVector1 | src/adsb/icao.rs:82 | "8D40621D…" (DF 17) has address 4219421 |
| IcaoVectors.IcaoVector2 | src/adsb/icao.rs:83 | "A0001838…7ADA59" (DF 20) has address 7453696 |
| Icao.IcaoWtc | src/adsb/icao.rs:63-73 | a Some result needs category set 4 and is one of L, S, M, H, J, R |
| Icao.IcaoWtcTable | src/adsb/icao.rs:63-73 | Some exactly for (4,1)..(4,5) and (4,7), and WtcCategory inverts it |
| Icao.IcaoWtcOfCategory | src/adsb/icao.rs:103-127 | each of L, S, M, H, J, R is the class of its own category |
| MaCode.MaCode | src/adsb/ma_code.rs:25-52 | the loop that ORs the 14 flag bits leaves MaCodeOf, always Some |
| MaCode.MaCodeBits | src/adsb/ma_code.rs:28-47 | bit 13-i of the code is the frame bit at the i-th position of the Mode A/C layout |
| MaCode.MaCodeRepeatsBit28 | src/adsb/ma_code.rs:36-42 | code bits 6 and 0 both copy frame bit 28, the low bit of nibble 6 |
| MaCode.MaValueWeighted | src/adsb/ma_code.rs:45-47 | the code is the sum of the flags weighted 8192 down to 1 |
| MaCode.MaCodeVector1 | src/adsb/ma_code.rs:62 | the nibbles of "8D40621D…" give code 1141 |
| MaCode.MaCodeVector2 | src/adsb/ma_code.rs:63 | the nibbles of "A0001838…" give code 12513 |
| MeCode.MeCode | src/adsb/me_code.rs:25-28 | always Some, equal to bits 41-52 shifted left twice with bit 48 in bit 0 |
| MeCode.MeCodeFits | src/adsb/me_code.rs:25-28 | the value is what flag_and_range_value(48, 41, 52) gives, shifted and ORed |
| MeCode.MeCodeFits14 | src/adsb/me_code.rs:27 | the code is below 2^14, so the u16 cast loses nothing |
| MeCode.MeCodeLowBits | src/adsb/me_code.rs:27 | bit 0 is frame bit 48 and bit 1 is always 0 |
| MeCode.MeCodeVector1 | src/adsb/me_code.rs:38 | the nibbles of "8D40621D58C382D6…" give 12513 |
| MeCode.MeCodeVector2 | src/adsb/me_code.rs:44 | the nibbles of "8DA7F6429B053D…" give 333 |
| Squawk.Squawk | src/adsb/squawk.rs:24-38 | always Some and at most 7777 |
| Squawk.SquawkIsIdentity | src/adsb/squawk.rs:25-37 | the four decimal digits are the A, B, C and D pulse triples (4-2-1) of the Mode A layout |
| Squawk.SquawkDigits | src/adsb/squawk.rs:26-34 | each decimal digit of the result is at most 7 |
| Squawk.SquawkVector1 | src/adsb/squawk.rs:52-54 | the squitters with code nibbles 189A give 5611 |
| Squawk.SquawkVector2 | src/adsb/squawk.rs:55-56 | the squitters with code nibbles 189F give 5617 |
| Gray.GrayToBin | src/adsb/altitude/graytobin.rs:3-51 | the 16-pass loop over mask, cp and result leaves GrayValue(code): high at most 31, low at most 4 |
| Gray.GrayDecodeBits | src/adsb/altitude/graytobin.rs:16-27 | bit k of the decoded byte is the XOR of bits 7 down to k of n |
| Gray.GrayRoundTrip | src/adsb/altitude/graytobin.rs:16-27 | decoding the Gray encoding of any byte gives the byte back |
| Gray.GrayIgnoresHighBits | src/adsb/altitude/graytobin.rs:16 | the decoder ignores bits 8-10 of n (D2, D4, A1) since its mask starts at 0x80 |
| Gray.GrayLowAsWritten | src/adsb/altitude/graytobin.rs:13-15 | the three low bits of n are C1, C2, C1, so the 100-ft step is only ever 0 or 2 |
| Gray.GillhamRoundTrip | src/adsb/altitude/graytobin.rs:29-46 | with all eight 500-ft pulses decoded and C4 in bit 0, every band and 100-ft step decodes back to itself |
| Gray.GrayVector1 | src/adsb/altitude/graytobin.rs:58-63 | "A8281200…" gives (31, 0) |
| Gray.GrayVector2 | src/adsb/altitude/graytobin.rs:67-72 | "A020100A…" gives (2, 0) as written |
| BaroAltitude.AltitudeCode | src/decoder/adsb/altitude/mod.rs:14-17 | the code is Some and below 2^14 |
| BaroAltitude.AltitudeCodeReads | src/decoder/adsb/altitude/mod.rs:14-17 | DF 17 reads the ME altitude field, every other format the Mode A/C code |
| BaroAltitude.AltitudeAsWritten | src/decoder/adsb/altitude/mod.rs:13-33 | a Some altitude is below 100000 ft |
| BaroAltitude.Altitude | src/decoder/adsb/altitude/mod.rs:13-33 | a Some altitude is below 100000 ft; the Gray branch uses the Gillham decoder on the format's own code |
| BaroAltitude.AltitudeGrayBranch | src/decoder/adsb/altitude/mod.rs:38-46 | with code bits 1 and 0 clear, the altitude is high*500 + low*100 - 1200, or None below 1200; a multiple of 100 at most 14700 |
| BaroAltitude.AltitudeGillhamBranch | src/decoder/adsb/altitude/mod.rs:38-46 | the same branch through the Gillham decoder of the format's own code |
| BaroAltitude.GrayFeetRange | src/decoder/adsb/altitude/mod.rs:41-45 | Some exactly when high*500 + low*100 is at least 1200, and then 1200 ft less |
| BaroAltitude.AltitudeQBranch | src/decoder/adsb/altitude/mod.rs:47 | with bit 1 clear and bit 0 set, the altitude is N*25 - 1000 for N at least 40, and None for smaller N (the u32 wrap exceeds the ceiling) |
| BaroAltitude.QFeet | src/decoder/adsb/altitude/mod.rs:47 | N*25 - 1000 for N at least 40, a multiple of 25; for N below 40 the u32 wrap-around, at least 2^32 - 1000 |
| BaroAltitude.AltitudeQReadsMeField | src/decoder/adsb/altitude/mod.rs:47 | in a DF 17 squitter with bit 48 set, N is ME bits 41-47 and 49-52 read as one number |
| BaroAltitude.AltitudeMetricBranch | src/decoder/adsb/altitude/mod.rs:49-51 | with code bit 1 set (never for DF 17) the altitude is N*31/100, at most 634 |
| BaroAltitude.BelowCeiling | src/decoder/adsb/altitude/mod.rs:19-32 | keeps exactly the values below 100000 |
| BaroAltitude.AltitudeVector1 | src/decoder/adsb/altitude/mod.rs:63-69 | "A8281200…" (DF 21) gives 14300 ft |
| BaroAltitude.AltitudeVector2 | src/decoder/adsb/altitude/mod.rs:72-78 | "A020100A…" (DF 20) gives None as written and 200 ft in the Gillham decoder |
| BaroAltitude.GrayDf17ReadsAddress | src/decoder/adsb/altitude/mod.rs:40 | two DF 17 squitters with the same ME altitude field but different address bits decode to 14300 ft and to None |
| BaroAltitude.AltitudeReadsMeField | src/decoder/adsb/altitude/mod.rs:13-46 | the corrected DF 17 altitude depends only on the ME altitude field |
| Delta.Delta | src/adsb/altitude/delta.rs:7-12 | 25 ft a step, negative exactly for sign 1 and a non-zero count |
| Delta.AltitudeDelta | src/adsb/altitude/delta.rs:1-5 | Some exactly when bit 81 is set and bits 82-88 are non-zero, and then -25 times the count, between -3175 and -25 |
| Delta.AltitudeDeltaVector | src/adsb/altitude/delta.rs:1-5 | nibbles 8, 4 at positions 20-21 give -100 ft |
| Ais.Ia5 | src/adsb/ais.rs:10-16 | codes 48-63 are the same ASCII character, 1-26 are A-Z, and every other code is a space |
| Ais.Codes | src/adsb/ais.rs:30-37 | eight 6-bit codes; CodesReadBits places code k at bits 41+6k..46+6k |
| Ais.CodesReadBits | src/adsb/ais.rs:30-37 | code k is bits 41+6k to 46+6k of the frame |
| Ais.Ais | src/adsb/ais.rs:27-44 | always Some, at most 8 characters, no space, only A-Z and 0-?, equal to the decoded characters with the spaces removed |
| Ais.AisVector1 | src/adsb/ais.rs:52-59 | "8DAAAA9225041331DF3820CAC7A4" gives "AAL173" |
| Ais.AisVector2 | src/adsb/ais.rs:64 | "8D406F7C250815F2CB4560C85DCA" gives "BAW224U" |
| Ais.SpacesAtEnd | src/adsb/ais.rs:38-42 | trailing padding spaces are dropped and the callsign before them is kept |
| Position.Cpr | src/decoder/adsb/position.rs:1-7 | always Some: the form is bit 54, the latitude bits 55-71, the longitude bits 72-88; form at most 1 and each coordinate below 2^17 |
| Position.CprLocation | src/decoder/adsb/position.rs:9-51 | None exactly when the two candidate latitudes have different NL; otherwise the candidate latitude of the given form and a longitude in [-180, 180) |
| Position.Zones | src/decoder/adsb/position.rs:28-39 | at least one zone; the odd form uses NL/coeff - 1 zones and the even form NL/coeff |
| Position.GlobalLon | src/decoder/adsb/position.rs:40-45 | the longitude before wrapping lies in [0, 360) |
| Position.FixedLat | src/decoder/adsb/position.rs:61-67 | shifts by -360 at 90 or more and by +360 at -90 or less, and keeps every latitude in between |
| Position.SignedLon | src/decoder/adsb/position.rs:53-59 | shifts by -360 at 180 or more and by +360 at -180 or less; a longitude in [0, 360) lands in [-180, 180) |
| Position.Nl | src/decoder/adsb/position.rs:88-157 | the number of longitude zones lies in 1..59 |
| Position.NlSymmetric | src/decoder/adsb/position.rs:89 | NL depends only on the absolute latitude |
| Position.NlMonotone | src/decoder/adsb/position.rs:90-156 | NL does not increase as the absolute latitude grows |
| Position.NlExtremes | src/decoder/adsb/position.rs:90-156 | 59 zones within 10 degrees of the equator and 1 zone from 87 degrees on |
| Position.NlTableShaped | src/decoder/adsb/position.rs:90-150 | the transition latitudes increase and the zone counts step down by one from 59 |
| CommB.Goodflags | src/adsb/bds/mod.rs:101-109 | true exactly when the flag bit is 1 and the field is non-zero |
| CommB.Bds | src/adsb/bds/mod.rs:20-99 | the result is one of the nine registers or (0, 0) |
| CommB.BdsIsFirstMatch | src/adsb/bds/mod.rs:20-99 | the result is the first test that holds in the order 1,0 2,0 3,0 1,7 4,0 5,0 6,0 4,4 4,5, else (0, 0) |
| CommB.FirstMatchIsFirst | src/adsb/bds/mod.rs:20-99 | the first test that holds decides, whatever follows it |
| CommB.Bds20Always | src/adsb/bds/mod.rs:26-28 | nibbles 8, 9 = 2, 0 always classify as (2, 0) |
| CommB.Bds17BeforeStatusTests | src/adsb/bds/mod.rs:38-40 | nibbles 15-18 all zero classify as (1, 7) or one of the header tests before it |
| CommB.Is30ReadsHeader | src/adsb/bds/mod.rs:30-36 | the 3,0 test reads nibbles 8, 9, nibble 7 and header bits 16-22 |
| CommB.Is50IsGoodflags | src/adsb/bds/mod.rs:51-63 | the 5,0 test is the five status-and-value checks |
| CommB.Is60Refuses | src/adsb/bds/mod.rs:65-77 | the 6,0 test is the five status-and-value checks, a heading of at most 180 and a Mach count of at most 1022 |
| CommB.PrefixBds | src/decoder/bds/mod.rs:26-46 | the register from bits 33-40: 1,0 with bits 42-46 clear, 2,0, or 3,0 with bits 61-62 not both set and bits 48-54 below 48 |
| CommB.PrefixAgrees | src/decoder/bds/mod.rs:26-46 | both classifiers agree on 1,0 and 2,0 |
| CommB.Is30MissesAdvisory | src/adsb/bds/mod.rs:30-36 | a 3,0 advisory that the MB-field test accepts is refused by the cascade |
| CommB.BdsVector | src/adsb/bds/mod.rs:117-122 | "8D40621D58C382D690C8AC2863A7" classifies as (0, 0) |
| Bds50.IsBds50 | src/adsb/bds/bds_5_0.rs:4-38 | a Some result holds the roll, track, track rate, ground speed and airspeed decoded from the register |
| Bds50.IsBds50Accepts | src/adsb/bds/bds_5_0.rs:5-23 | Some exactly when the five status-and-value checks hold and the ground speed and airspeed differ by less than 200 |
| Bds50.SpeedGap | src/adsb/bds/bds_5_0.rs:23 | the speed difference below 200 kt is the raw counts differing by less than 100 |
| Bds50.IsBds50Classified | src/adsb/bds/bds_5_0.rs:4-38 | an accepted register classifies as 5,0 or one of the registers tested before it |
| Ehs50.RollAngle | src/adsb/ehs/bds_5_0.rs:19-25 | the floor of (value - 512*sign) * 45/256, within [-90, 89] for a 9-bit value |
| Ehs50.RollAngleVectors | src/adsb/ehs/bds_5_0.rs:105-111 | (0,511) gives 89, (1,1) gives -90 and (1,511) gives -1 |
| Ehs50.RollAngle50 | src/adsb/ehs/bds_5_0.rs:1-17 | Some exactly when bit 33 is set, and then the roll angle of bits 34-43 |
| Ehs50.TrackAngle | src/adsb/ehs/bds_5_0.rs:45-51 | the floor of (value + 1024*sign) * 90/512, below 360 for a 10-bit value |
| Ehs50.TrackAngle50 | src/adsb/ehs/bds_5_0.rs:27-43 | Some exactly when bit 44 is set, and then the track angle of bits 45-55 |
| Ehs50.TrackAngleRate | src/adsb/ehs/bds_5_0.rs:71-77 | the floor of (value - 512*sign) * 8/256, within [-16, 15] for a 9-bit value |
| Ehs50.TrackAngleRate50 | src/adsb/ehs/bds_5_0.rs:53-69 | Some exactly when bit 67 is set, and then the rate of bits 68-77 |
| Ehs50.GroundSpeed50 | src/adsb/ehs/bds_5_0.rs:79-88 | Some exactly when bit 56 is set, and then twice bits 57-66, at most 2046 |
| Ehs50.TrueAirspeed50 | src/adsb/ehs/bds_5_0.rs:90-99 | Some exactly when bit 78 is set, and then twice bits 79-88, at most 2046 |
| Ehs60.MagneticHeading60 | src/adsb/ehs/bds_6_0.rs:3-28 | Some exactly when bit 33 is set, and then the angle of bits 34-44, below 360 |
| Ehs60.IndicatedAirspeed60 | src/adsb/ehs/bds_6_0.rs:32-41 | Some exactly when bit 45 is set, and then the raw bits 46-55 |
| Ehs60.MachCount60 | src/adsb/ehs/bds_6_0.rs:45-54 | Some exactly when bit 56 is set, and then the raw count of bits 57-66 |
| Ehs60.VerticalRate | src/adsb/ehs/bds_6_0.rs:77-83 | (value - 512*sign) * 32, within [-16384, 16352] for a 9-bit value |
| Ehs60.VerticalRateVectors | src/adsb/ehs/bds_6_0.rs:118-132 | (0,511) gives 16352, (1,511) gives -32 and (1,1) gives -16352 |
| Ehs60.BaroAltitudeRate60 | src/adsb/ehs/bds_6_0.rs:58-74 | Some exactly when bit 67 is set, and then the rate of bits 68-77 |
| Ehs60.InternalVerticalVelocity60 | src/adsb/ehs/bds_6_0.rs:87-112 | Some exactly when bit 78 is set, and then the rate of bits 79-88 |
| Bds40.McpSelectedAltitude | src/decoder/ehs/bds_4_0.rs:5-10 | Some exactly when bit 33 is set, and then 16 times bits 34-45 |
| Bds40.FmsSelectedAltitude | src/decoder/ehs/bds_4_0.rs:12-16 | Some exactly when bit 46 is set, and then 16 times bits 47-58 |
| Bds40.BarometricPressureSetting | src/decoder/ehs/bds_4_0.rs:18-28 | bits 60-71 divided by 10, plus 800 when bit 59 is set; at most 1209 |
| Bds40.TargetAltitudeSource | src/decoder/ehs/bds_4_0.rs:30-34 | Some exactly when bit 86 is set, and then bits 87-88 |
| Bds40.McpVector1 | src/decoder/ehs/bds_4_0.rs:43-44 | the MCP test squitters with nibbles ACF6 give 23008 ft |
| Bds40.McpVector2 | src/decoder/ehs/bds_4_0.rs:45 | the MCP test squitter with nibbles B8AE gives 29008 ft |
| Bds40.FmsVector1 | src/decoder/ehs/bds_4_0.rs:57-58 | the FMS test squitters with nibbles 6427 give 37008 ft |
| Bds40.FmsVector2 | src/decoder/ehs/bds_4_0.rs:59 | the FMS test squitter with nibbles E427 gives 37008 ft |
| MeteoFields.Temp44 | src/adsb/meteo/mod.rs:7-13 | plus or minus value/4 by the sign bit, within ±255.75 |
| MeteoFields.Temp44Vectors | src/adsb/meteo/mod.rs:101-104 | the extreme values give -255.75 and 255.75 |
| MeteoFields.Temperature44 | src/adsb/meteo/mod.rs:3-5 | always Some, never gated by a status bit: Temp44 of bits 56 and 57-66 |
| MeteoFields.WindSpeed | src/adsb/meteo/mod.rs:15-19 | Some exactly when bit 37 is set, and then bits 38-46 |
| MeteoFields.WindDirection | src/adsb/meteo/mod.rs:21-25 | Some exactly when bit 37 is set, and then the floor of bits 47-55 * 180/256, below 360 |
| MeteoFields.Wind44 | src/adsb/meteo/mod.rs:27-33 | Some exactly when bit 37 is set (both parts share it), and then speed and direction |
| MeteoFields.Turbulence44 | src/adsb/meteo/mod.rs:35-39 | Some exactly when bit 79 is set, and then bits 80-81 |
| MeteoFields.Percent | src/adsb/meteo/mod.rs:44 | the floor of value * 100/64, at most 98 for 6 bits |
| MeteoFields.PercentVectors | src/adsb/meteo/mod.rs:94-98 | 63, 1 and 0 give 98, 1 and 0 |
| MeteoFields.Humidity44 | src/adsb/meteo/mod.rs:41-45 | Some exactly when bit 82 is set, and then the percentage of bits 83-88 |
| MeteoFields.Pressure44 | src/adsb/meteo/mod.rs:47-51 | Some exactly when bit 67 is set, and then bits 68-78 |
| Bds44.IsBds44 | src/decoder/bds/bds_4_4/mod.rs:48-83 | a Some result needs a figure of merit above 8 and the 4,4 checks, and holds temperature, humidity, turbulence and pressure |
| Bds44.IsBds44Accepts | src/decoder/bds/bds_4_4/mod.rs:48-79 | Some exactly when the figure of merit exceeds 8, the five checks hold and the temperature is in [-80, 60] |
| Bds44.IsBds44Fields | src/decoder/bds/bds_4_4/mod.rs:57-79 | the fields are the decoded values; the wind is kept exactly when its speed is at most 300 |
| Bds44.Filter | src/decoder/bds/bds_4_4/mod.rs:57-63 | keeps a value exactly when it is present and passes the range test |
| Bds44.FigureOfMerit | src/decoder/bds/bds_4_4/mod.rs:49-50 | the figure of merit is nibble 8 |
| Aircraft.Plane.constructor | src/decoder/plane/mod.rs:61-110 | the new state is Initial(now): every optional field None, both CPR slots and the fix zero, last DF and type code 0 |
| Aircraft.Plane.FromMessage | src/decoder/plane/mod.rs:112-118 | a fresh aircraft with its address and registration, after exactly one update; its altitude, like the source's, comes from the as-written decoder BaroAltitude.AltitudeAsWritten |
| Aircraft.MessageType | src/decoder/utils/mod.rs:67-69 | the type code is bits 33-37 and the subtype bits 38-40 |
| Aircraft.ThreatEncounter | src/decoder/adsb/acas.rs:1-11 | the threat mark by bit 60, else by bit 41, else None |
| Aircraft.Wrap32 | src/decoder/plane/update.rs:74 | the u32 cast of an i32 sum: unchanged when non-negative, plus 2^32 when negative |
| Aircraft.Plane.Update | src/decoder/plane/update.rs:40-210 | the new state is Updated(old state, frame, df, relaxed, now, decoded fields); the DF 4/20 and TC 9-18 altitude is BaroAltitude.AltitudeAsWritten, the decoder `update` calls |
| Aircraft.Plane.UpdateHeader | src/decoder/plane/update.rs:41-54 | the new state is Header(old state, …); the DF 4/20 altitude is BaroAltitude.AltitudeAsWritten |
| Aircraft.Plane.UpdateExtended | src/decoder/plane/update.rs:55-106 | the new state is Extended(old state, …); the TC 9-18 altitude is BaroAltitude.AltitudeAsWritten |
| Aircraft.Plane.UpdateByTypeCode | src/decoder/plane/update.rs:59-105 | the new state is ByTypeCode(old state, …); the TC 9-18 arm writes BaroAltitude.AltitudeAsWritten |
| Aircraft.Plane.UpdateVelocity | src/decoder/plane/update.rs:69-96 | the new state is Velocity(old state, …) |
| Aircraft.Plane.UpdateCommB | src/decoder/plane/update.rs:107-209 | the new state and register are CommBUpdate(old state, …) |
| Aircraft.Plane.TryBds17 | src/decoder/plane/update.rs:115-132 | the new state and register are Step17(old state, …) |
| Aircraft.Plane.TryBds40 | src/decoder/plane/update.rs:133-156 | the new state and register are Step40(old state, …) |
| Aircraft.Plane.TryBds50 | src/decoder/plane/update.rs:157-170 | the new state and register are Step50(old state, …) |
| Aircraft.Plane.TryBds60 | src/decoder/plane/update.rs:171-191 | the new state and register are Step60(old state, …) |
| Aircraft.Plane.TryBds44 | src/decoder/plane/update.rs:192-204 | the new state and register are Step44(old state, …) |
| Aircraft.Plane.UpdateCpr | src/decoder/plane/update.rs:7-17 | the new state is CprUpdated(old state, frame, type code) |
| Aircraft.Plane.UpdateFromExt14 | src/decoder/plane/update.rs:19-22 | the new state is FromExt14(old state, …) |
| Aircraft.Plane.UpdateFromExt58 | src/decoder/plane/update.rs:24-31 | the new state is FromExt58(old state, …) |
| Aircraft.Plane.UpdateFromExt918 | src/decoder/plane/update.rs:33-38 | the new state is FromExt918(old state, …); the altitude is BaroAltitude.AltitudeAsWritten, as `update_from_ext_9_18` calls `decoder::altitude` |
| Aircraft.Plane.UpdatePosition | src/decoder/plane/update_position.rs:21-44 | the new state is PositionUpdated(old state, type code, form) |
| Aircraft.UpdateStamps | src/decoder/plane/update.rs:41-42 | every update sets the timestamp to now and the last DF to df |
| Aircraft.HeaderFields | src/decoder/plane/update.rs:44-54 | the altitude is written only for DF 4/20 (and by DF 17/18 squitters), and then as BaroAltitude.AltitudeAsWritten; the squawk only for DF 5/21, the capability only for DF 11/17 |
| Aircraft.UpdateAltitudeVector | src/decoder/plane/update.rs:44-47 | for the DF 20 reply of the altitude tests (code 8232) an update leaves the aircraft with no barometric altitude, as `decoder::altitude` gives None for it |
| Aircraft.TypeCodeFields | src/decoder/plane/update.rs:55-66 | a DF 17/18 squitter sets the last type code to its type code; TC 5-8 clears the altitude and sets its source mark to ⁰ |
| Aircraft.ExtendedKeeps | src/decoder/plane/update.rs:55-106 | the extended-squitter step keeps the header fields, and changes nothing outside DF 17/18 |
| Aircraft.CprWritesOwnSlot | src/decoder/plane/update.rs:7-17 | only slot `form` of the CPR latitude, longitude and time is written, with the time stamped; the other slot is unchanged |
| Aircraft.CprKeeps | src/decoder/plane/update.rs:7-17 | the CPR step changes only the CPR slots, the fix and its timestamp |
| Aircraft.PositionGate | src/decoder/plane/update_position.rs:21-44 | the state changes only when all four CPR values are non-zero, the slots are less than 10 s apart, the type code is 5-18 and the decoded fix (coefficient 4 for TC 5-8, 1 otherwise) is in [-90, 90] × [-180, 180]; then exactly lat, lon and the position timestamp are written, and whenever those hold the fix is committed |
| Aircraft.PositionKeeps | src/decoder/plane/update_position.rs:21-44 | the position step changes nothing but lat, lon and the position timestamp |
| Aircraft.PlausibleKept | src/decoder/plane/update.rs:40-210 | an update keeps a committed fix within range and an altitude below the ceiling |
| Aircraft.VelocityGnss | src/decoder/plane/update.rs:72-76 | the GNSS altitude is the u32 cast of altitude + delta when both are known, else unchanged; a negative sum wraps to at least 2^32 - 3175 |
| Aircraft.CommBKeeps | src/decoder/plane/update.rs:107-209 | the Comm-B step changes only Comm-B fields, and nothing unless (relaxed or capability above 3) and DF 20/21 |
| Aircraft.OneRegister | src/decoder/plane/update.rs:107-209 | at most one of the 1,7 4,0 5,0 6,0 4,4 registers is applied, only when the prefix classifier gave (0, 0); the callsign changes only for 2,0 and the threat mark only for 3,0 |
| Aircraft.CascadeFromNone | src/decoder/plane/update.rs:115-204 | from (0, 0) the cascade ends on at most one register, and every other register's fields are kept |
| Aircraft.CascadeKnown | src/decoder/plane/update.rs:115-204 | a register already known skips the cascade |
| Aircraft.CascadeRates | src/decoder/plane/update.rs:171-197 | 6,0 sets the rate source mark to ⁶ when the baro rate is present, else ⁱ; 4,4 overwrites the wind only when the decoded wind is Some |
| Aircraft.CascadeKeepsAnnounced | src/decoder/plane/update.rs:115-204 | the cascade leaves the callsign and the threat mark alone |

## Left out

- Display, logging and I/O: `Display` implementations, `debug!`/`info!` messages and the reader are not modelled.
- The clock: `Utc::now()` becomes the integer parameter `now`, in whole seconds, supplied by the caller.
- Some decoders whose source is not part of this model reach `Aircraft.Plane.Update` as a `Decoded` record of their results. Others are replaced by their src/adsb versions, as the lines on the decoder tree below say. The `Decoded` ones are `is_bds_1_7`, `is_bds_4_0`, `is_bds_5_0` and `is_bds_6_0` of the decoder tree, `is_bds_4_5`, velocity, heading, ground movement, GNSS height, version and surveillance status. The model does not tie these results to the frame.
- The registration prefix from `icao_to_country` is a parameter of `Aircraft.Plane.FromMessage`; the country table is not part of this model.
- `Aircraft.State` holds every field of `Plane` in one record. The `[u32; 2]` CPR arrays are two-element sequences. The capability's second half is reduced to the Comm-B capability flags the update reads.
- Floating point: the CPR arithmetic is on exact reals, so f64 rounding is not modelled. `temperature_4_4` and the humidity and direction scalings are exact. The Mach number of BDS 6,0 is its raw count.
- Calc.RangeValue: `range_value` is not part of this model; it is assumed to be `flag_and_range_value` with flag 0.
- The decoder tree's copies of `range_value`, `flag_and_range_value`, `graytobin`, `ma_code` and `me_code` are assumed identical to the ones in src/adsb.
- The decoder tree's `ais`, `squawk` and `altitude_delta`, which `update` calls (src/decoder/plane/update.rs:20, 49, 73), are not part of this model. They are assumed identical to src/adsb's, so the aircraft state is built from `Ais.Ais`, `Squawk.Squawk` and `Delta.AltitudeDelta`. `Aircraft.HeaderFields` (the squawk), `Aircraft.OneRegister` (the callsign) and `Aircraft.VelocityGnss` rest on this assumption.
- The decoder tree's `temperature_4_4`, `wind_4_4`, `turbulence_4_4`, `humidity_4_4` and `pressure_4_4`, which `is_bds_4_4` calls (src/decoder/bds/bds_4_4/mod.rs:58-62), are not part of this model. They are assumed identical to the `MeteoFields` functions of src/adsb/meteo. `Bds44.IsBds44Accepts` and `Bds44.IsBds44Fields` rest on this assumption.
- Position.CprLocation: `pmod` of src/decoder/adsb/position.rs:79-85 is the same code as `Utils.Pmod`; the model uses Dafny's `%`, which agrees with it for the positive zone count.
- Utils.Pmod: works on unbounded integers, so the i32 width and the overflow panic of `i32::MIN % -1` are not modelled. For a negative divisor the contract states only the range (2y, -y) of the result, not its value; the only caller passes a positive zone count.
- BaroAltitude.QFeet: `N*25 - 1000` for N below 40 underflows u32. The model takes the release-build wrap-around; a debug build panics instead. Either way no altitude results, because the wrapped value exceeds the 100000-ft ceiling.
- BaroAltitude.MetricFeet: the `0.31` scaling on f32 is modelled as the exact `N*31/100`, rounded down.
- Icao.FrameFits: requires 22 nibbles when DF is above 15. In the source, `icao` calls `get_crc` unconditionally, and `crc112` panics with an index out of range on a 14-nibble frame whose DF is 16 or more. `message` admits such a frame because the remainder is always 0.
- Crc.GetCrc: requires the frame length the chosen CRC reads. The same short-frame panic becomes a precondition.
- Every extractor: an out-of-range bit index panics in the source (slice indexing); in the model it is a precondition on the frame length.
- `temperature_4_5` and `is_bds_4_5` are floating-point decoders and are not modelled; the 4,5 register reaches the aircraft state through `Decoded`.
- The 60-s eviction of silent aircraft is the caller's policy and is not modelled.

## Findings

| source | as written | input that shows it | evidently intended | confidence | as-written member | corrected member |
|---|---|---|---|---|---|---|
| src/adsb/crc.rs:65-89 | `reminder` XORs the generator into `bytes[i..i+4]` only for i below len-6, so it writes no further than index len-4, and then reads its result from the last three bytes, which stay 0; it returns 0 for every frame, so `message` keeps every frame of the right length | any frame, e.g. "8D40621D58C382D690C8AC2863A7" with its last digit changed | a DF 11, 17 or 18 frame is kept only when its parity field equals the CRC of the bits before it | not executed | Crc.Reminder | FrameCheck.OnlyOwnParityPasses |
| src/adsb/altitude/graytobin.rs:5-16 | the Gray loop's mask starts at 0x80, so D2, D4 and A1 (bits 8-10 of n) are never decoded; bit 0 of n repeats C1 where Gillham code puts C4, so the 100-ft step can only be 0 or 2 | "A020100A10020A80F000004F24AF", code 8232: (2, 0) and no altitude, where Gillham decoding gives (2, 4) and 200 ft | all eight 500-ft pulses Gray-decoded, and C1 C2 C4 read into the 100-ft tables | not executed | Gray.GrayLowAsWritten | Gray.GillhamRoundTrip |
| src/decoder/adsb/altitude/mod.rs:40 | the Gray branch calls `graytobin(message)`, which reads `ma_code`, i.e. the Mode A/C bits of the header, even for DF 17, where those bits are the aircraft address | two DF 17 squitters with the same ME altitude field and address nibbles 1200 and 100A: 14300 ft and None | the Gray branch decodes the code the format carries (the ME field for DF 17) | not executed | BaroAltitude.GrayDf17ReadsAddress | BaroAltitude.AltitudeReadsMeField |
| src/adsb/bds/mod.rs:30-36 | the 3,0 test reads nibble 7 and header bits 16-22 instead of MB bits 61-62 and 48-54 | a DF 20 reply with MB starting 30 and nibble 4 = F: the cascade refuses it while the MB-field test of src/decoder/bds/mod.rs:37-43 gives 3,0 | the threat-type and advisory fields of the MB field are tested | not executed | CommB.Is30MissesAdvisory | CommB.PrefixBds |
