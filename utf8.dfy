/** UTF-8 encoding of text, as `bytes(text, "utf-8")` performs it
    (RFC 3629). Dafny characters are Unicode scalar values, so every
    string is encodable; a decoder is given beside the encoder so that
    the encoding can be shown to lose nothing. */
module Utf8 {
  import opened Wrappers
  import opened Bytes

  /** The bytes of one character. */
  function EncodeChar(c: char): (bs: seq<byte>)
    ensures 1 <= |bs| <= 4
    ensures |bs| == 1 <==> c as int < 0x80
  {
    var cp := c as int;
    if cp < 0x80 then [cp]
    else if cp < 0x800 then [0xC0 + cp / 64, 0x80 + cp % 64]
    else if cp < 0x10000 then [0xE0 + cp / 4096, 0x80 + (cp / 64) % 64, 0x80 + cp % 64]
    else [0xF0 + cp / 262144, 0x80 + (cp / 4096) % 64, 0x80 + (cp / 64) % 64, 0x80 + cp % 64]
  }

  /** `text.encode("utf-8")`. */
  function Encode(s: string): seq<byte>
  {
    if s == [] then [] else EncodeChar(s[0]) + Encode(s[1..])
  }

  /** Length of the sequence that a lead byte announces; 0 for a byte that cannot lead. */
  function LeadLength(b: byte): nat
  {
    if b < 0x80 then 1
    else if 0xC0 <= b < 0xE0 then 2
    else if 0xE0 <= b < 0xF0 then 3
    else if 0xF0 <= b < 0xF8 then 4
    else 0
  }

  predicate IsContinuation(b: byte) { 0x80 <= b < 0xC0 }

  predicate IsScalarValue(cp: int)
  {
    (0 <= cp < 0xD800) || (0xE000 <= cp < 0x110000)
  }

  /** The character that a complete, shortest-form sequence encodes. */
  function DecodeChar(bs: seq<byte>): Option<char>
    requires 1 <= |bs| <= 4 && LeadLength(bs[0]) == |bs|
  {
    if |bs| == 1 then Some(bs[0] as char)
    else if exists i | 1 <= i < |bs| :: !IsContinuation(bs[i]) then None
    else
      var b0, b1 := bs[0] as int, bs[1] as int - 0x80;
      var cp: int :=
        if |bs| == 2 then (b0 - 0xC0) * 64 + b1
        else if |bs| == 3 then ((b0 - 0xE0) * 64 + b1) * 64 + (bs[2] as int - 0x80)
        else (((b0 - 0xF0) * 64 + b1) * 64 + (bs[2] as int - 0x80)) * 64 + (bs[3] as int - 0x80);
      var least: int := if |bs| == 2 then 0x80 else if |bs| == 3 then 0x800 else 0x10000;
      if least <= cp && IsScalarValue(cp) then Some(cp as char) else None
  }

  /** `data.decode("utf-8")`: `None` on any malformed input. */
  function Decode(bs: seq<byte>): Option<string>
    decreases |bs|
  {
    if bs == [] then Some([])
    else
      var n := LeadLength(bs[0]);
      if n == 0 || |bs| < n then None
      else match DecodeChar(bs[..n])
        case None => None
        case Some(c) =>
          match Decode(bs[n..])
          case None => None
          case Some(rest) => Some([c] + rest)
  }

  lemma DivMod64(x: nat)
    ensures x == (x / 64) * 64 + x % 64
    ensures x / 4096 == (x / 64) / 64
    ensures x / 262144 == (x / 4096) / 64
  {
  }

  lemma {:induction false} DecodeEncodeChar(c: char)
    ensures LeadLength(EncodeChar(c)[0]) == |EncodeChar(c)|
    ensures DecodeChar(EncodeChar(c)) == Some(c)
  {
    var cp := c as int;
    var bs := EncodeChar(c);
    DivMod64(cp);
    DivMod64(cp / 64);
    DivMod64(cp / 4096);
    if cp >= 0x80 {
      assert forall i | 1 <= i < |bs| :: IsContinuation(bs[i]);
    }
  }

  /** Decoding the encoding of a string gives the string back. */
  lemma {:induction false} DecodeEncode(s: string)
    ensures Decode(Encode(s)) == Some(s)
  {
    if s != [] {
      var head := EncodeChar(s[0]);
      var bs := Encode(s);
      DecodeEncodeChar(s[0]);
      DecodeEncode(s[1..]);
      assert bs[..|head|] == head;
      assert bs[|head|..] == Encode(s[1..]);
      assert s == [s[0]] + s[1..];
    }
  }

  /** ASCII text encodes to one byte per character, the character's code. */
  lemma {:induction false} EncodeAscii(s: string)
    requires forall i | 0 <= i < |s| :: s[i] as int < 0x80
    ensures |Encode(s)| == |s|
    ensures forall i | 0 <= i < |s| :: Encode(s)[i] == s[i] as int
  {
    if s != [] {
      EncodeAscii(s[1..]);
    }
  }
}
