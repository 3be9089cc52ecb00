/**
 * The squitter cleaner (src/adsb/format.rs): keep the hexadecimal digits of a
 * received line, trim it, and accept the short (14) or long (28) frame, or the
 * same frame behind a 12-digit receiver header (26 or 40 digits).
 */
module Format {
  import opened Wrappers

  /** `u8::is_ascii_hexdigit`: 0-9, A-F, a-f. */
  predicate IsHexDigit(c: char)
  {
    '0' <= c <= '9' || 'A' <= c <= 'F' || 'a' <= c <= 'f'
  }

  predicate AllHex(s: seq<char>)
  {
    forall k :: 0 <= k < |s| ==> IsHexDigit(s[k])
  }

  /** The characters `str::trim` removes (the Unicode White_Space property). */
  predicate IsWhitespace(c: char)
  {
    '\t' <= c <= '\r' || c == ' ' || c == '\U{0085}' || c == '\U{00A0}' || c == '\U{1680}'
    || '\U{2000}' <= c <= '\U{200A}' || c == '\U{2028}' || c == '\U{2029}' || c == '\U{202F}'
    || c == '\U{205F}' || c == '\U{3000}'
  }

  /** The hexadecimal digits of the line, in order. */
  function FilterHex(s: seq<char>): (r: seq<char>)
    ensures AllHex(r) && |r| <= |s|
    decreases |s|
  {
    if s == [] then []
    else if IsHexDigit(s[0]) then [s[0]] + FilterHex(s[1..])
    else FilterHex(s[1..])
  }

  /** Drops leading characters satisfying the predicate (`trim_start_matches`). */
  function TrimStart(s: seq<char>, drop: char -> bool): (r: seq<char>)
    ensures |r| <= |s| && r == s[|s| - |r|..]
    ensures r != [] ==> !drop(r[0])
    decreases |s|
  {
    if s != [] && drop(s[0]) then TrimStart(s[1..], drop) else s
  }

  /** Drops trailing characters satisfying the predicate (`trim_end_matches`). */
  function TrimEnd(s: seq<char>, drop: char -> bool): (r: seq<char>)
    ensures |r| <= |s| && r == s[..|r|]
    ensures r != [] ==> !drop(r[|r| - 1])
    decreases |s|
  {
    if s != [] && drop(s[|s| - 1]) then TrimEnd(s[..|s| - 1], drop) else s
  }

  function Trim(s: seq<char>): seq<char>
  {
    TrimEnd(TrimStart(s, IsWhitespace), IsWhitespace)
  }

  /** `trim().trim_start_matches('@').trim_end_matches(';').trim()` of the filtered line. */
  function Trimmed(line: seq<char>): seq<char>
  {
    Trim(TrimEnd(TrimStart(Trim(FilterHex(line)), c => c == '@'), c => c == ';'))
  }

  /** `clean_squitter`. */
  function CleanSquitter(line: seq<char>): (r: Option<seq<char>>)
    ensures r.Some? ==> AllHex(r.value) && (|r.value| == 14 || |r.value| == 28)
  {
    var t := Trimmed(line);
    TrimmedIsFiltered(line);
    if |t| == 14 || |t| == 28 then Some(t)
    else if |t| == 26 || |t| == 40 then Some(t[12..])
    else None
  }

  /** None of the trims removes a hexadecimal digit. */
  lemma TrimmedIsFiltered(line: seq<char>)
    ensures Trimmed(line) == FilterHex(line)
  {
    var f := FilterHex(line);
    TrimKeepsHex(f, IsWhitespace);
    TrimKeepsHex(f, c => c == '@');
    TrimKeepsHex(f, c => c == ';');
  }

  lemma TrimKeepsHex(s: seq<char>, drop: char -> bool)
    requires AllHex(s)
    requires forall c :: IsHexDigit(c) ==> !drop(c)
    ensures TrimStart(s, drop) == s && TrimEnd(s, drop) == s
  {
  }

  /** The digits that survive are exactly the hexadecimal characters of the line. */
  lemma {:induction false} FilterHexKeepsHex(s: seq<char>)
    ensures FilterHex(s) == s <==> AllHex(s)
    decreases |s|
  {
    if s != [] {
      FilterHexKeepsHex(s[1..]);
      if !IsHexDigit(s[0]) {
        assert |FilterHex(s)| < |s|;
      }
    }
  }

  lemma {:induction false} FilterHexAppend(a: seq<char>, b: seq<char>)
    ensures FilterHex(a + b) == FilterHex(a) + FilterHex(b)
    decreases |a|
  {
    if a == [] {
      assert a + b == b;
    } else {
      var ab := a + b;
      assert ab != [] && ab[0] == a[0] && ab[1..] == a[1..] + b;
      FilterHexAppend(a[1..], b);
      if IsHexDigit(a[0]) {
        assert FilterHex(ab) == [a[0]] + FilterHex(ab[1..]);
        assert FilterHex(a) == [a[0]] + FilterHex(a[1..]);
      } else {
        assert FilterHex(ab) == FilterHex(ab[1..]);
      }
    }
  }

  /** Clean frames of 14 or 28 digits come back unchanged. */
  lemma CleanKeepsFrame(line: seq<char>)
    requires AllHex(line) && (|line| == 14 || |line| == 28)
    ensures CleanSquitter(line) == Some(line)
  {
    TrimmedIsFiltered(line);
    FilterHexKeepsHex(line);
  }

  /** A 26- or 40-digit line loses its 12-digit receiver header. */
  lemma CleanDropsHeader(line: seq<char>)
    requires AllHex(line) && (|line| == 26 || |line| == 40)
    ensures CleanSquitter(line) == Some(line[12..])
  {
    TrimmedIsFiltered(line);
    FilterHexKeepsHex(line);
  }

  /** Any other number of hexadecimal digits is rejected. */
  lemma CleanRejectsOtherLengths(line: seq<char>)
    ensures CleanSquitter(line).None? <==> |FilterHex(line)| !in {14, 26, 28, 40}
  {
    TrimmedIsFiltered(line);
  }

  /** Cleaning is idempotent: a cleaned squitter cleans to itself. */
  lemma CleanIdempotent(line: seq<char>)
    requires CleanSquitter(line).Some?
    ensures CleanSquitter(CleanSquitter(line).value) == CleanSquitter(line)
  {
    CleanKeepsFrame(CleanSquitter(line).value);
  }

  /** The receiver-framed example: '@', a 12-digit header, the frame, ';'. */
  lemma CleanSbsExample()
    ensures CleanSquitter("@" + "05FFD0CF94E28D49329099115719707811B06CF5" + ";")
      == Some("8D49329099115719707811B06CF5")
  {
    SbsBodyIsHex();
    SbsFrameAfterHeader();
    CleanFramedHeader("05FFD0CF94E28D49329099115719707811B06CF5");
  }

  lemma SbsBodyIsHex()
    ensures AllHex("05FFD0CF94E28D49329099115719707811B06CF5")
  {
  }

  lemma SbsFrameAfterHeader()
    ensures "05FFD0CF94E28D49329099115719707811B06CF5"[12..] == "8D49329099115719707811B06CF5"
  {
  }

  /** A framed line with a header keeps the frame after the header. */
  lemma CleanFramedHeader(body: seq<char>)
    requires AllHex(body) && |body| == 40
    ensures CleanSquitter("@" + body + ";") == Some(body[12..])
  {
    var line := "@" + body + ";";
    FilterHexFramed(body);
    CleanByLength(line);
  }

  /** Cleaning is decided by the hexadecimal digits of the line alone. */
  lemma CleanByLength(line: seq<char>)
    ensures var f := FilterHex(line);
      CleanSquitter(line)
        == if |f| == 14 || |f| == 28 then Some(f)
           else if |f| == 26 || |f| == 40 then Some(f[12..])
           else None
  {
    TrimmedIsFiltered(line);
  }

  /** The '@' and ';' framing characters are not hexadecimal digits. */
  lemma FilterHexFramed(body: seq<char>)
    requires AllHex(body)
    ensures FilterHex("@" + body + ";") == body
  {
    FilterHexAppend("@", body + ";");
    FilterHexAppend(body, ";");
    FilterHexKeepsHex(body);
    assert FilterHex("@") == [] && FilterHex(";") == [];
    assert "@" + body + ";" == "@" + (body + ";");
  }
}
