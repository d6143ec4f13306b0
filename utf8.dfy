/**
 * UTF-8 (RFC 3629): the octets a string is form-encoded from.
 * Ruby strings in the client are UTF-8, and escaping works octet by octet.
 */
module Utf8 {
  import opened Wrappers

  type Byte = x: int | 0 <= x < 256

  /** Code points a Dafny `char` can hold: the Unicode scalar values. */
  predicate IsScalar(cp: int) {
    0 <= cp < 0xD800 || 0xE000 <= cp < 0x11_0000
  }

  /** A continuation octet `10xxxxxx`. */
  predicate IsContinuation(b: Byte) {
    0x80 <= b < 0xC0
  }

  /** The one to four octets that encode `c`. */
  function CharOctets(c: char): (r: seq<Byte>)
    ensures 1 <= |r| <= 4
    ensures (|r| == 1) == (c as int < 0x80)
    ensures forall i | 1 <= i < |r| :: IsContinuation(r[i])
  {
    var cp := c as int;
    if cp < 0x80 then [cp]
    else if cp < 0x800 then [0xC0 + cp / 64, 0x80 + cp % 64]
    else if cp < 0x1_0000 then [0xE0 + cp / 4096, 0x80 + (cp / 64) % 64, 0x80 + cp % 64]
    else [0xF0 + cp / 262144, 0x80 + (cp / 4096) % 64, 0x80 + (cp / 64) % 64, 0x80 + cp % 64]
  }

  function Encode(s: string): seq<Byte> {
    if s == [] then [] else CharOctets(s[0]) + Encode(s[1..])
  }

  /**
   * Decodes the character at the head of `bs` and says how many octets it
   * took. Overlong forms, surrogates and code points past U+10FFFF are refused.
   */
  function DecodeFirst(bs: seq<Byte>): (r: Option<(char, nat)>)
    requires bs != []
    ensures r.Some? ==> 1 <= r.value.1 <= |bs|
  {
    var b0: int := bs[0];
    if b0 < 0x80 then
      Some((b0 as char, 1))
    else if 0xC0 <= b0 < 0xE0 && |bs| >= 2 && IsContinuation(bs[1]) then
      var cp := (b0 - 0xC0) * 64 + (bs[1] as int - 0x80);
      if 0x80 <= cp then Some((cp as char, 2)) else None
    else if 0xE0 <= b0 < 0xF0 && |bs| >= 3 && IsContinuation(bs[1]) && IsContinuation(bs[2]) then
      var cp := (b0 - 0xE0) * 4096 + (bs[1] as int - 0x80) * 64 + (bs[2] as int - 0x80);
      if 0x800 <= cp && IsScalar(cp) then Some((cp as char, 3)) else None
    else if 0xF0 <= b0 < 0xF8 && |bs| >= 4
            && IsContinuation(bs[1]) && IsContinuation(bs[2]) && IsContinuation(bs[3]) then
      var cp := (b0 - 0xF0) * 262144 + (bs[1] as int - 0x80) * 4096 + (bs[2] as int - 0x80) * 64 + (bs[3] as int - 0x80);
      if 0x1_0000 <= cp && IsScalar(cp) then Some((cp as char, 4)) else None
    else
      None
  }

  function Decode(bs: seq<Byte>): Option<string>
    decreases |bs|
  {
    if bs == [] then Some([])
    else match DecodeFirst(bs)
      case None => None
      case Some((c, n)) =>
        match Decode(bs[n..])
        case None => None
        case Some(rest) => Some([c] + rest)
  }

  lemma TwoOctets(cp: int)
    requires 0 <= cp
    ensures (cp / 64) * 64 + cp % 64 == cp
  {
  }

  lemma ThreeOctets(cp: int)
    requires 0 <= cp
    ensures (cp / 4096) * 4096 + ((cp / 64) % 64) * 64 + cp % 64 == cp
  {
    assert cp / 4096 == (cp / 64) / 64;
  }

  lemma FourOctets(cp: int)
    requires 0 <= cp
    ensures (cp / 262144) * 262144 + ((cp / 4096) % 64) * 4096 + ((cp / 64) % 64) * 64 + cp % 64 == cp
  {
    assert cp / 4096 == (cp / 64) / 64;
    assert cp / 262144 == (cp / 4096) / 64;
    ThreeOctets(cp);
  }

  /** The decoder reads back exactly the character at the head, and no more. */
  lemma DecodeFirstCharOctets(c: char, rest: seq<Byte>)
    ensures DecodeFirst(CharOctets(c) + rest) == Some((c, |CharOctets(c)|))
  {
    var cp := c as int;
    var bs := CharOctets(c) + rest;
    if cp < 0x80 {
    } else if cp < 0x800 {
      TwoOctets(cp);
      assert bs[0] == 0xC0 + cp / 64 && bs[1] == 0x80 + cp % 64;
    } else if cp < 0x1_0000 {
      ThreeOctets(cp);
      assert bs[0] == 0xE0 + cp / 4096 && bs[1] == 0x80 + (cp / 64) % 64 && bs[2] == 0x80 + cp % 64;
    } else {
      FourOctets(cp);
      assert bs[0] == 0xF0 + cp / 262144 && bs[1] == 0x80 + (cp / 4096) % 64;
      assert bs[2] == 0x80 + (cp / 64) % 64 && bs[3] == 0x80 + cp % 64;
    }
  }

  /** Round trip: decoding the encoding of any string gives that string back. */
  lemma {:induction false} DecodeEncode(s: string)
    ensures Decode(Encode(s)) == Some(s)
  {
    if s != [] {
      var head := CharOctets(s[0]);
      var bs := Encode(s);
      assert bs == head + Encode(s[1..]);
      DecodeFirstCharOctets(s[0], Encode(s[1..]));
      assert bs[|head|..] == Encode(s[1..]);
      DecodeEncode(s[1..]);
      assert [s[0]] + s[1..] == s;
    }
  }

  /** Characters below U+0080 are their own single octet. */
  lemma {:induction false} EncodeAscii(s: string)
    requires forall i | 0 <= i < |s| :: s[i] as int < 0x80
    ensures |Encode(s)| == |s|
    ensures forall i | 0 <= i < |s| :: Encode(s)[i] == s[i] as int
  {
    if s != [] {
      EncodeAscii(s[1..]);
    }
  }

  lemma {:induction false} EncodeAppend(a: string, b: string)
    ensures Encode(a + b) == Encode(a) + Encode(b)
  {
    if a == [] {
      assert a + b == b;
    } else {
      assert (a + b)[1..] == a[1..] + b;
      EncodeAppend(a[1..], b);
    }
  }
}
