/**
 * The standard base64 alphabet with padding (section 4 of RFC 4648), as Go's
 * base64.StdEncoding decodes and encodes it. Decoding skips carriage returns and
 * line feeds anywhere in the input, needs whole groups of four characters, allows
 * '=' padding only in the last group, and does not insist that the unused low bits
 * of a padded group are zero.
 */
module Base64 {
  import opened Wrappers
  import opened Strings

  /** The value of one alphabet character, or None for a character outside the alphabet. */
  function Value(c: char): (r: Option<int>)
    ensures r.Some? ==> 0 <= r.value < 64
  {
    if 'A' <= c <= 'Z' then Some(c as int - 'A' as int)
    else if 'a' <= c <= 'z' then Some(c as int - 'a' as int + 26)
    else if '0' <= c <= '9' then Some(c as int - '0' as int + 52)
    else if c == '+' then Some(62)
    else if c == '/' then Some(63)
    else None
  }

  /** The alphabet character for a six-bit value. */
  function Digit(i: int): (c: char)
    requires 0 <= i < 64
    ensures Value(c) == Some(i)
  {
    if i < 26 then ('A' as int + i) as char
    else if i < 52 then ('a' as int + i - 26) as char
    else if i < 62 then ('0' as int + i - 52) as char
    else if i == 62 then '+'
    else '/'
  }

  /** The input with every '\r' and '\n' removed. */
  function StripNewlines(s: string): (r: string)
    ensures '\r' !in r && '\n' !in r
    ensures |r| <= |s|
  {
    if |s| == 0 then ""
    else if s[0] == '\r' || s[0] == '\n' then StripNewlines(s[1..])
    else [s[0]] + StripNewlines(s[1..])
  }

  lemma {:induction false} StripNothing(s: string)
    requires '\r' !in s && '\n' !in s
    ensures StripNewlines(s) == s
  {
    if |s| > 0 {
      assert s[0] != '\r' && s[0] != '\n';
      StripNothing(s[1..]);
      assert [s[0]] + s[1..] == s;
    }
  }

  /**
   * One group of four characters. A '=' in the third place demands one in the fourth
   * and gives one byte; a '=' in the fourth place alone gives two bytes; padding is
   * only accepted in the last group of the input.
   */
  function DecodeQuad(c0: char, c1: char, c2: char, c3: char, last: bool): (r: Option<seq<Byte>>)
    ensures r.Some? ==> 1 <= |r.value| <= 3
    ensures r.Some? && |r.value| < 3 ==> last
  {
    match (Value(c0), Value(c1))
    case (Some(a), Some(b)) =>
      var b0 := a * 4 + b / 16;
      if c2 == '=' then
        if c3 == '=' && last then Some([b0]) else None
      else if Value(c2).None? then None
      else
        var c := Value(c2).value;
        var b1 := (b % 16) * 16 + c / 4;
        if c3 == '=' then
          if last then Some([b0, b1]) else None
        else if Value(c3).None? then None
        else
          var d := Value(c3).value;
          Some([b0, b1, (c % 4) * 64 + d])
    case _ => None
  }

  /** Decoding of a text that holds no line breaks: whole groups of four, padding last. */
  function Decode(t: string): (r: Option<seq<Byte>>)
    ensures r.Some? ==> |t| % 4 == 0 && |r.value| <= |t| / 4 * 3
    ensures r.Some? && |t| > 0 ==> |r.value| > |t| / 4 * 3 - 3
    decreases |t|
  {
    if |t| == 0 then Some([])
    else if |t| < 4 then None
    else
      match DecodeQuad(t[0], t[1], t[2], t[3], |t| == 4)
      case None => None
      case Some(head) =>
        match Decode(t[4..])
        case None => None
        case Some(tail) => Some(head + tail)
  }

  /** Go's base64.StdEncoding.DecodeString. */
  function DecodeString(s: string): (r: Option<seq<Byte>>)
    ensures r.Some? ==> |StripNewlines(s)| % 4 == 0
  {
    Decode(StripNewlines(s))
  }

  /** The group for a final single byte: two digits and two pads. */
  function GroupOne(x: Byte): (q: string)
    ensures |q| == 4 && q[2] == '=' && q[3] == '='
    ensures Value(q[0]).Some? && Value(q[1]).Some?
  {
    [Digit(x / 4), Digit((x % 4) * 16), '=', '=']
  }

  /** The group for two final bytes: three digits and one pad. */
  function GroupTwo(x: Byte, y: Byte): (q: string)
    ensures |q| == 4 && q[3] == '='
    ensures Value(q[0]).Some? && Value(q[1]).Some? && Value(q[2]).Some?
  {
    [Digit(x / 4), Digit((x % 4) * 16 + y / 16), Digit((y % 16) * 4), '=']
  }

  /** The group for three bytes: four digits. */
  function GroupThree(x: Byte, y: Byte, z: Byte): (q: string)
    ensures |q| == 4 && forall i :: 0 <= i < 4 ==> Value(q[i]).Some?
  {
    [Digit(x / 4), Digit((x % 4) * 16 + y / 16), Digit((y % 16) * 4 + z / 64), Digit(z % 64)]
  }

  /** Go's base64.StdEncoding.EncodeToString. */
  function Encode(bs: seq<Byte>): (r: string)
    ensures |r| == (|bs| + 2) / 3 * 4
    ensures forall i :: 0 <= i < |r| ==> Value(r[i]).Some? || r[i] == '='
    decreases |bs|
  {
    if |bs| == 0 then ""
    else if |bs| == 1 then GroupOne(bs[0])
    else if |bs| == 2 then GroupTwo(bs[0], bs[1])
    else
      var q := GroupThree(bs[0], bs[1], bs[2]);
      var rest := Encode(bs[3..]);
      assert forall i :: 4 <= i < |q + rest| ==> (q + rest)[i] == rest[i - 4];
      q + rest
  }

  /** The arithmetic that undoes the split of three bytes into four six-bit values. */
  lemma Regroup(x: Byte, y: Byte, z: Byte)
    ensures (x / 4) * 4 + ((x % 4) * 16 + y / 16) / 16 == x
    ensures (((x % 4) * 16 + y / 16) % 16) * 16 + ((y % 16) * 4 + z / 64) / 4 == y
    ensures (((y % 16) * 4 + z / 64) % 4) * 64 + z % 64 == z
  {
    assert ((x % 4) * 16 + y / 16) / 16 == x % 4;
    assert ((x % 4) * 16 + y / 16) % 16 == y / 16;
    assert ((y % 16) * 4 + z / 64) / 4 == y % 16;
    assert ((y % 16) * 4 + z / 64) % 4 == z / 64;
  }

  lemma QuadOne(x: Byte)
    ensures var q := GroupOne(x); DecodeQuad(q[0], q[1], q[2], q[3], true) == Some([x])
  {
    Regroup(x, 0, 0);
  }

  lemma QuadTwo(x: Byte, y: Byte)
    ensures var q := GroupTwo(x, y); DecodeQuad(q[0], q[1], q[2], q[3], true) == Some([x, y])
  {
    Regroup(x, y, 0);
    assert ((y % 16) * 4) / 4 == y % 16;
  }

  lemma QuadThree(x: Byte, y: Byte, z: Byte, last: bool)
    ensures var q := GroupThree(x, y, z); DecodeQuad(q[0], q[1], q[2], q[3], last) == Some([x, y, z])
  {
    Regroup(x, y, z);
  }

  /** Decoding a group followed by more text. */
  lemma DecodeCons(q: string, rest: string, head: seq<Byte>, tail: seq<Byte>)
    requires |q| == 4
    requires DecodeQuad(q[0], q[1], q[2], q[3], |rest| == 0) == Some(head)
    requires Decode(rest) == Some(tail)
    ensures Decode(q + rest) == Some(head + tail)
  {
    var t := q + rest;
    assert t[0] == q[0] && t[1] == q[1] && t[2] == q[2] && t[3] == q[3];
    assert t[4..] == rest;
  }

  /** Decoding undoes encoding for every byte sequence. */
  lemma {:induction false} DecodeEncode(bs: seq<Byte>)
    ensures Decode(Encode(bs)) == Some(bs)
    decreases |bs|
  {
    if |bs| == 1 {
      QuadOne(bs[0]);
      DecodeCons(GroupOne(bs[0]), "", [bs[0]], []);
      assert GroupOne(bs[0]) + "" == Encode(bs);
      assert [bs[0]] + [] == bs;
    } else if |bs| == 2 {
      QuadTwo(bs[0], bs[1]);
      DecodeCons(GroupTwo(bs[0], bs[1]), "", [bs[0], bs[1]], []);
      assert GroupTwo(bs[0], bs[1]) + "" == Encode(bs);
      assert [bs[0], bs[1]] + [] == bs;
    } else if |bs| >= 3 {
      var rest := Encode(bs[3..]);
      QuadThree(bs[0], bs[1], bs[2], |rest| == 0);
      DecodeEncode(bs[3..]);
      DecodeCons(GroupThree(bs[0], bs[1], bs[2]), rest, [bs[0], bs[1], bs[2]], bs[3..]);
      assert [bs[0], bs[1], bs[2]] + bs[3..] == bs;
    }
  }

  /** The same through DecodeString: encoded text holds no line breaks. */
  lemma DecodeStringEncode(bs: seq<Byte>)
    ensures DecodeString(Encode(bs)) == Some(bs)
  {
    var t := Encode(bs);
    assert forall i :: 0 <= i < |t| ==> t[i] != '\r' && t[i] != '\n' by {
      forall i | 0 <= i < |t| ensures t[i] != '\r' && t[i] != '\n' {
        assert Value(t[i]).Some? || t[i] == '=';
      }
    }
    StripNothing(t);
    DecodeEncode(bs);
  }
}
