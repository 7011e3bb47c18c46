/** Standard Base64 as `base64.b64encode` produces it: the alphabet and
    padding of section 4 of RFC 4648. The decoder beside it accepts
    exactly the canonical encodings and shows the encoding is lossless. */
module Base64 {
  import opened Wrappers
  import opened Bytes

  /** Character of a 6-bit value in the standard alphabet. */
  function CharOf(i: nat): (c: char)
    requires i < 64
    ensures c as int < 0x80
  {
    if i < 26 then ('A' as int + i) as char
    else if i < 52 then ('a' as int + (i - 26)) as char
    else if i < 62 then ('0' as int + (i - 52)) as char
    else if i == 62 then '+'
    else '/'
  }

  /** 6-bit value of an alphabet character; `None` for the pad and any other character. */
  function IndexOf(c: char): Option<nat>
  {
    if 'A' <= c <= 'Z' then Some(c as int - 'A' as int)
    else if 'a' <= c <= 'z' then Some(c as int - 'a' as int + 26)
    else if '0' <= c <= '9' then Some(c as int - '0' as int + 52)
    else if c == '+' then Some(62)
    else if c == '/' then Some(63)
    else None
  }

  lemma IndexOfCharOf(i: nat)
    requires i < 64
    ensures IndexOf(CharOf(i)) == Some(i)
  {
  }

  /** `base64.b64encode(data).decode("ascii")`: each group of three bytes
      becomes four characters; a final group of one or two bytes is
      padded with `=` to four. */
  function Encode(data: seq<byte>): (s: string)
    ensures |s| == 4 * ((|data| + 2) / 3)
    ensures forall i | 0 <= i < |s| :: s[i] as int < 0x80
  {
    if data == [] then []
    else if |data| == 1 then
      [CharOf(data[0] / 4), CharOf((data[0] % 4) * 16), '=', '=']
    else if |data| == 2 then
      [CharOf(data[0] / 4), CharOf((data[0] % 4) * 16 + data[1] / 16), CharOf((data[1] % 16) * 4), '=']
    else
      [CharOf(data[0] / 4), CharOf((data[0] % 4) * 16 + data[1] / 16),
       CharOf((data[1] % 16) * 4 + data[2] / 64), CharOf(data[2] % 64)]
      + Encode(data[3..])
  }

  /** The bytes of one four-character group; `final` allows padding. */
  function DecodeGroup(g: string, final: bool): Option<seq<byte>>
    requires |g| == 4
  {
    match (IndexOf(g[0]), IndexOf(g[1]), IndexOf(g[2]), IndexOf(g[3]))
    case (Some(i0), Some(i1), None, None) =>
      if final && g[2] == '=' && g[3] == '=' && i1 % 16 == 0
      then Some([i0 * 4 + i1 / 16]) else None
    case (Some(i0), Some(i1), Some(i2), None) =>
      if final && g[3] == '=' && i2 % 4 == 0
      then Some([i0 * 4 + i1 / 16, (i1 % 16) * 16 + i2 / 4]) else None
    case (Some(i0), Some(i1), Some(i2), Some(i3)) =>
      Some([i0 * 4 + i1 / 16, (i1 % 16) * 16 + i2 / 4, (i2 % 4) * 64 + i3])
    case _ => None
  }

  /** Strict decoding: `None` unless the text is a canonical encoding. */
  function Decode(s: string): Option<seq<byte>>
    decreases |s|
  {
    if s == [] then Some([])
    else if |s| < 4 then None
    else match DecodeGroup(s[..4], |s| == 4)
      case None => None
      case Some(head) =>
        match Decode(s[4..])
        case None => None
        case Some(tail) => Some(head + tail)
  }

  lemma {:induction false} EncodeGroupRoundTrip(data: seq<byte>)
    requires 1 <= |data|
    ensures var n := if |data| < 3 then |data| else 3;
            var g := Encode(data)[..4];
            DecodeGroup(g, |data| <= 3) == Some(data[..n])
  {
    var b0 := data[0];
    assert (b0 / 4) * 4 + b0 % 4 == b0;
    IndexOfCharOf(b0 / 4);
    assert IndexOf('=') == None;
    if |data| == 1 {
      var i1 := (b0 % 4) * 16;
      IndexOfCharOf(i1);
      assert i1 % 16 == 0 && i1 / 16 == b0 % 4;
      var g := Encode(data)[..4];
      assert g == [CharOf(b0 / 4), CharOf(i1), '=', '='];
      assert IndexOf(g[2]) == None && IndexOf(g[3]) == None;
      assert DecodeGroup(g, true) == Some([b0]);
      assert data[..1] == [b0];
    } else {
      var b1 := data[1];
      assert (b1 / 16) * 16 + b1 % 16 == b1;
      IndexOfCharOf((b0 % 4) * 16 + b1 / 16);
      var i1 := (b0 % 4) * 16 + b1 / 16;
      assert i1 / 16 == b0 % 4 && i1 % 16 == b1 / 16;
      if |data| == 2 {
        var i2 := (b1 % 16) * 4;
        IndexOfCharOf(i2);
        assert i2 % 4 == 0 && i2 / 4 == b1 % 16;
        var g := Encode(data)[..4];
        assert g == [CharOf(b0 / 4), CharOf(i1), CharOf(i2), '='];
        assert IndexOf(g[3]) == None;
        assert DecodeGroup(g, true) == Some([b0, b1]);
        assert data[..2] == [b0, b1];
      } else {
        var b2 := data[2];
        var i2 := (b1 % 16) * 4 + b2 / 64;
        var i3 := b2 % 64;
        assert (b2 / 64) * 64 + b2 % 64 == b2;
        assert i2 / 4 == b1 % 16 && i2 % 4 == b2 / 64;
        IndexOfCharOf(i2);
        IndexOfCharOf(i3);
        var g := Encode(data)[..4];
        assert g == [CharOf(b0 / 4), CharOf(i1), CharOf(i2), CharOf(i3)];
        assert DecodeGroup(g, |data| <= 3) == Some([b0, b1, b2]);
        assert data[..3] == [b0, b1, b2];
      }
    }
  }

  /** Decoding an encoding gives the bytes back. */
  lemma {:induction false} DecodeEncode(data: seq<byte>)
    ensures Decode(Encode(data)) == Some(data)
  {
    if data != [] {
      var s := Encode(data);
      EncodeGroupRoundTrip(data);
      if |data| > 3 {
        DecodeEncode(data[3..]);
        assert s[4..] == Encode(data[3..]);
        assert data == data[..3] + data[3..];
      } else {
        assert |s| == 4;
        assert s[..4] == s && s[4..] == [];
        assert data[..|data|] == data;
        assert DecodeGroup(s[..4], |s| == 4) == Some(data);
        assert Decode(s[4..]) == Some([]);
        assert data + [] == data;
      }
    }
  }
}
