/**
 * `base64.StdEncoding` (section 4 of RFC 4648: the alphabet A-Z a-z 0-9 + /,
 * with '=' padding), which the client uses to build its HTTP Basic credential.
 * Decoding is the partner that shows the encoding loses nothing.
 */
module Base64 {
  import opened Wrappers
  import opened Urls

  /** The character for a 6-bit value. */
  function Digit(v: nat): (c: char)
    requires v < 64
  {
    if v < 26 then ('A' as int + v) as char
    else if v < 52 then ('a' as int + (v - 26)) as char
    else if v < 62 then ('0' as int + (v - 52)) as char
    else if v == 62 then '+'
    else '/'
  }

  /** The 6-bit value of an alphabet character; None for anything else, '=' included. */
  function DigitValue(c: char): (r: Option<nat>)
    ensures r.Some? ==> r.value < 64
  {
    if 'A' <= c <= 'Z' then Some(c as int - 'A' as int)
    else if 'a' <= c <= 'z' then Some(c as int - 'a' as int + 26)
    else if '0' <= c <= '9' then Some(c as int - '0' as int + 52)
    else if c == '+' then Some(62)
    else if c == '/' then Some(63)
    else None
  }

  lemma DigitRoundTrip(v: nat)
    requires v < 64
    ensures DigitValue(Digit(v)) == Some(v)
    ensures Digit(v) != '='
  {
  }

  /** Four characters for three bytes. */
  function Quad(b0: Byte, b1: Byte, b2: Byte): string
  {
    [Digit(b0 / 4), Digit((b0 % 4) * 16 + b1 / 16), Digit((b1 % 16) * 4 + b2 / 64), Digit(b2 % 64)]
  }

  /** `base64.StdEncoding.EncodeToString(bs)`. */
  function Encode(bs: seq<Byte>): (r: string)
    ensures |r| == 4 * ((|bs| + 2) / 3)
  {
    if |bs| >= 3 then Quad(bs[0], bs[1], bs[2]) + Encode(bs[3..])
    else if |bs| == 2 then [Digit(bs[0] / 4), Digit((bs[0] % 4) * 16 + bs[1] / 16), Digit((bs[1] % 16) * 4), '=']
    else if |bs| == 1 then [Digit(bs[0] / 4), Digit((bs[0] % 4) * 16), '=', '=']
    else ""
  }

  /** Decoding, group by group; padding may only close the last group. */
  function Decode(s: string): Option<seq<Byte>>
    decreases |s|
  {
    if s == [] then Some([])
    else if |s| < 4 then None
    else
      var d0, d1, d2, d3 := DigitValue(s[0]), DigitValue(s[1]), DigitValue(s[2]), DigitValue(s[3]);
      if d0.None? || d1.None? then None
      else if |s| == 4 && s[2] == '=' && s[3] == '=' then
        Some([d0.value * 4 + d1.value / 16])
      else if d2.None? then None
      else if |s| == 4 && s[3] == '=' then
        Some([d0.value * 4 + d1.value / 16, (d1.value % 16) * 16 + d2.value / 4])
      else if d3.None? then None
      else
        match Decode(s[4..])
        case None => None
        case Some(rest) =>
          Some([d0.value * 4 + d1.value / 16, (d1.value % 16) * 16 + d2.value / 4, (d2.value % 4) * 64 + d3.value] + rest)
  }

  /** The four 6-bit values of a group give back its three bytes. */
  lemma GroupArithmetic(b0: Byte, b1: Byte, b2: Byte)
    ensures var d1, d2 := (b0 % 4) * 16 + b1 / 16, (b1 % 16) * 4 + b2 / 64;
      && b0 / 4 * 4 + d1 / 16 == b0
      && (d1 % 16) * 16 + d2 / 4 == b1
      && (d2 % 4) * 64 + b2 % 64 == b2
  {
    var d1, d2 := (b0 % 4) * 16 + b1 / 16, (b1 % 16) * 4 + b2 / 64;
    assert d1 / 16 == b0 % 4 && d1 % 16 == b1 / 16;
    assert d2 / 4 == b1 % 16 && d2 % 4 == b2 / 64;
  }

  /** A full group decodes to its three bytes, followed by whatever the rest decodes to. */
  lemma QuadDecodes(b0: Byte, b1: Byte, b2: Byte, rest: string)
    ensures Decode(Quad(b0, b1, b2) + rest) ==
      match Decode(rest)
      case None => None
      case Some(r) => Some([b0, b1, b2] + r)
  {
    var s := Quad(b0, b1, b2) + rest;
    DigitRoundTrip(b0 / 4);
    DigitRoundTrip((b0 % 4) * 16 + b1 / 16);
    DigitRoundTrip((b1 % 16) * 4 + b2 / 64);
    DigitRoundTrip(b2 % 64);
    GroupArithmetic(b0, b1, b2);
    assert s[4..] == rest;
  }

  /** Two trailing bytes: three characters and one '='. */
  lemma PairDecodes(b0: Byte, b1: Byte)
    ensures Decode(Encode([b0, b1])) == Some([b0, b1])
  {
    DigitRoundTrip(b0 / 4);
    DigitRoundTrip((b0 % 4) * 16 + b1 / 16);
    DigitRoundTrip((b1 % 16) * 4);
    GroupArithmetic(b0, b1, 0);
  }

  /** One trailing byte: two characters and "==". */
  lemma SingleDecodes(b0: Byte)
    ensures Decode(Encode([b0])) == Some([b0])
  {
    DigitRoundTrip(b0 / 4);
    DigitRoundTrip((b0 % 4) * 16);
    GroupArithmetic(b0, 0, 0);
  }

  lemma {:induction false} DecodeEncode(bs: seq<Byte>)
    ensures Decode(Encode(bs)) == Some(bs)
    decreases |bs|
  {
    if |bs| >= 3 {
      QuadDecodes(bs[0], bs[1], bs[2], Encode(bs[3..]));
      DecodeEncode(bs[3..]);
      assert bs == [bs[0], bs[1], bs[2]] + bs[3..];
    } else if |bs| == 2 {
      PairDecodes(bs[0], bs[1]);
      assert bs == [bs[0], bs[1]];
    } else if |bs| == 1 {
      SingleDecodes(bs[0]);
      assert bs == [bs[0]];
    }
  }
}
