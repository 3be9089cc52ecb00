/**
 * Message admission and the header fields (src/adsb/utils.rs): a received
 * line becomes a nibble buffer when it cleans to a 14- or 28-digit frame
 * whose remainder is zero; the downlink format and the capability are read
 * from its first two nibbles.
 */
module Utils {
  import opened Wrappers
  import opened Bits
  import opened Format
  import opened Crc

  /** `u32::from_str_radix(c, 16)`: the value of one hexadecimal digit, either case. */
  function HexValue(c: char): (n: Nibble)
    requires IsHexDigit(c)
  {
    if '0' <= c <= '9' then c as int - '0' as int
    else if 'A' <= c <= 'F' then c as int - 'A' as int + 10
    else c as int - 'a' as int + 10
  }

  /** The upper-case digit of a nibble, as the squitters are written. */
  function HexDigit(n: Nibble): (c: char)
    ensures IsHexDigit(c)
  {
    if n < 10 then ('0' as int + n) as char else ('A' as int + n - 10) as char
  }

  /** The digits of a cleaned squitter, each mapped to its value. */
  function ToNibbles(s: seq<char>): (m: seq<Nibble>)
    requires AllHex(s)
    ensures |m| == |s|
    decreases |s|
  {
    if s == [] then [] else [HexValue(s[0])] + ToNibbles(s[1..])
  }

  /** A nibble buffer written out in upper-case hexadecimal. */
  function HexString(m: seq<Nibble>): (s: seq<char>)
    ensures |s| == |m| && AllHex(s)
    decreases |m|
  {
    if m == [] then [] else [HexDigit(m[0])] + HexString(m[1..])
  }

  lemma {:induction false} HexStringAt(m: seq<Nibble>, k: nat)
    requires k < |m|
    ensures HexString(m)[k] == HexDigit(m[k])
    decreases |m|
  {
    if k > 0 {
      HexStringAt(m[1..], k - 1);
    }
  }

  lemma HexDigitValue(n: Nibble)
    ensures HexValue(HexDigit(n)) == n
  {
  }

  /** Each nibble is the value of the digit at the same place. */
  lemma {:induction false} ToNibblesAt(s: seq<char>, k: nat)
    requires AllHex(s) && k < |s|
    ensures ToNibbles(s)[k] == HexValue(s[k])
    decreases |s|
  {
    if k > 0 {
      ToNibblesAt(s[1..], k - 1);
    }
  }

  /** Writing a buffer in hexadecimal and reading it back gives the buffer. */
  lemma {:induction false} ToNibblesOfHexString(m: seq<Nibble>)
    ensures ToNibbles(HexString(m)) == m
    decreases |m|
  {
    if m != [] {
      var s := HexString(m);
      assert s[1..] == HexString(m[1..]);
      HexDigitValue(m[0]);
      ToNibblesOfHexString(m[1..]);
    }
  }

  /**
   * `message`: clean the line; a 14- or 28-digit frame becomes its nibbles,
   * kept only when its remainder is zero.
   */
  method Message(squitter: seq<char>) returns (r: Option<seq<Nibble>>)
    ensures r.Some? <==> CleanSquitter(squitter).Some?
    ensures r.Some? ==> r.value == ToNibbles(CleanSquitter(squitter).value)
    ensures r.Some? ==> |r.value| == 14 || |r.value| == 28
  {
    match CleanSquitter(squitter)
    case None =>
      r := None;
    case Some(cleaned) =>
      if |cleaned| == 14 || |cleaned| == 28 {
        var message := ToNibbles(cleaned);
        var rem := Reminder(message);
        if rem == 0 {
          r := Some(message);
        } else {
          r := None;
        }
      } else {
        r := None;
      }
  }

  /** The short squitter of the tests, digit by digit. */
  lemma ToNibblesShortExample()
    ensures AllHex("02E197B" + "00179C3")
    ensures ToNibbles("02E197B" + "00179C3") == [0, 2, 14, 1, 9, 7, 11] + [0, 0, 1, 7, 9, 12, 3]
  {
    var a, b := "02E197B", "00179C3";
    ToNibblesFirstHalf();
    ToNibblesSecondHalf();
    ToNibblesAppend(a, b);
  }

  lemma ToNibblesFirstHalf()
    ensures AllHex("02E197B") && ToNibbles("02E197B") == [0, 2, 14, 1, 9, 7, 11]
  {
    var s := "02E197B";
    assert AllHex(s);
    ToNibblesAt(s, 0);
    ToNibblesAt(s, 1);
    ToNibblesAt(s, 2);
    ToNibblesAt(s, 3);
    ToNibblesAt(s, 4);
    ToNibblesAt(s, 5);
    ToNibblesAt(s, 6);
  }

  lemma ToNibblesSecondHalf()
    ensures AllHex("00179C3") && ToNibbles("00179C3") == [0, 0, 1, 7, 9, 12, 3]
  {
    var s := "00179C3";
    assert AllHex(s);
    ToNibblesAt(s, 0);
    ToNibblesAt(s, 1);
    ToNibblesAt(s, 2);
    ToNibblesAt(s, 3);
    ToNibblesAt(s, 4);
    ToNibblesAt(s, 5);
    ToNibblesAt(s, 6);
  }

  lemma {:induction false} ToNibblesAppend(a: seq<char>, b: seq<char>)
    requires AllHex(a) && AllHex(b)
    ensures AllHex(a + b) && ToNibbles(a + b) == ToNibbles(a) + ToNibbles(b)
    decreases |a|
  {
    if a != [] {
      assert (a + b)[1..] == a[1..] + b;
      ToNibblesAppend(a[1..], b);
    } else {
      assert a + b == b;
    }
  }

  /** `df`: `m[0] << 1 | m[1] >> 3`, the downlink format in bits 1-5. */
  function Df(m: seq<Nibble>): (df: nat)
    requires |m| >= 2
    ensures df == Field(m, 1, 5) && df < 32
  {
    DfIsField(m);
    m[0] as int * 2 + m[1] as int / 8
  }

  lemma DfIsField(m: seq<Nibble>)
    requires |m| >= 2
    ensures Field(m, 1, 5) == m[0] as int * 2 + m[1] as int / 8
  {
    FieldSplit(m, 1, 4, 5);
    WholeNibble(m, 0);
    FieldNibbleTail(m, 1, 0);
    Pow2Small();
  }

  /** `ca`: `m[1] & 7`, the capability in bits 6-8. */
  function Ca(m: seq<Nibble>): (ca: nat)
    requires |m| >= 2
    ensures ca == Field(m, 6, 8) && ca <= 7
  {
    FieldNibbleHead(m, 1, 1);
    Pow2Small();
    m[1] as int % 8
  }

  /** The downlink formats of the test squitters: 0x8D... is DF 17, 0xA8... is DF 21. */
  lemma DfExamples(m: seq<Nibble>)
    requires |m| >= 2
    ensures m[0] == 8 && m[1] == 13 ==> Df(m) == 17 && Ca(m) == 5
    ensures m[0] == 10 && m[1] == 8 ==> Df(m) == 21
  {
  }

  /**
   * Rust's `%` on integers: the remainder takes the sign of the dividend, so
   * it is the Euclidean remainder, or that remainder less |y| when it is negative.
   */
  function TruncRem(x: int, y: int): (r: int)
    requires y != 0
    ensures r == 0 || (r < 0 <==> x < 0)
    ensures r == if r < 0 then x % Abs(y) - Abs(y) else x % Abs(y)
  {
    var a := Abs(y);
    if x >= 0 then x % a
    else
      var n := (-x) % a;
      NegatedRem(x, a);
      assert n == 0 ==> x % a == 0;
      assert n != 0 ==> x % a == a - n;
      -n
  }

  function Abs(y: int): nat
  {
    if y < 0 then -y else y
  }

  /** The remainders of -x and x add up to 0 or to the divisor. */
  lemma NegatedRem(x: int, a: int)
    requires a > 0
    ensures ((-x) % a == 0 && x % a == 0) || (-x) % a + x % a == a
  {
    var q, r := x / a, x % a;
    assert x == q * a + r;
    if r == 0 {
      assert -x == (-q) * a + 0;
      RemUnique(-x, a, -q, 0);
    } else {
      assert -x == (-q - 1) * a + (a - r);
      RemUnique(-x, a, -q - 1, a - r);
    }
  }

  /** The remainder is the one r in 0..a-1 with x = q * a + r. */
  lemma RemUnique(x: int, a: int, q: int, r: int)
    requires a > 0 && 0 <= r < a && x == q * a + r
    ensures x % a == r
  {
    var q', r' := x / a, x % a;
    assert x == q' * a + r';
    assert (q - q') * a == r' - r by {
      assert (q - q') * a == q * a - q' * a;
    }
    if q > q' {
      MulAtLeast(q - q', a);
    } else if q < q' {
      MulAtLeast(q' - q, a);
    }
  }

  lemma MulAtLeast(d: int, a: int)
    requires d >= 1 && a > 0
    ensures d * a >= a
  {
    assert d * a == (d - 1) * a + a;
    assert (d - 1) * a >= 0;
  }

  /**
   * `pmod`: the remainder moved into 0..y-1 for a positive divisor; it is
   * then Dafny's (Euclidean) `%`.
   */
  method Pmod(x: int, y: int) returns (res: int)
    requires y != 0
    ensures y > 0 ==> 0 <= res < y && res == x % y
    ensures y < 0 ==> 2 * y < res < -y
  {
    res := TruncRem(x, y);
    if res < 0 {
      res := res + y;
    }
  }

  /** The distance between two integers: `abs_diff` of two speeds, `.abs()` of the gap between two capture times. */
  function AbsDiff(a: int, b: int): (d: nat)
    ensures d == a - b || d == b - a
  {
    if a < b then b - a else a - b
  }
}
