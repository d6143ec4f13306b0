/**
 * application/x-www-form-urlencoded escaping of one key or value
 * (section 17.13.4.1 of HTML 4.01): a space becomes `+`, the characters
 * left unreserved by section 2.3 of RFC 3986 stay as they are, and every
 * other octet of the UTF-8 encoding becomes `%HH` with upper-case hex
 * digits (section 2.1 of RFC 3986).
 */
module FormEncoding {
  import opened Wrappers
  import Utf8

  const HexDigits: string := "0123456789ABCDEF"

  /** Unreserved characters of section 2.3 of RFC 3986. */
  predicate Unreserved(c: char) {
    || 'A' <= c <= 'Z' || 'a' <= c <= 'z' || '0' <= c <= '9'
    || c == '-' || c == '.' || c == '_' || c == '~'
  }

  /** Every character an escaped text may hold. */
  predicate IsEscapedChar(c: char) {
    Unreserved(c) || c == '+' || c == '%'
  }

  predicate IsHexDigit(c: char) {
    '0' <= c <= '9' || 'A' <= c <= 'F' || 'a' <= c <= 'f'
  }

  function HexValue(c: char): (n: nat)
    requires IsHexDigit(c)
    ensures n < 16
  {
    if '0' <= c <= '9' then c as int - '0' as int
    else if 'A' <= c <= 'F' then c as int - 'A' as int + 10
    else c as int - 'a' as int + 10
  }

  /** The escape of one octet: `+`, the character itself, or `%HH`. */
  function EscapeOctet(b: Utf8.Byte): string {
    if b == 0x20 then "+"
    else if Unreserved(b as char) then [b as char]
    else ['%', HexDigits[b / 16], HexDigits[b % 16]]
  }

  function EscapeOctets(bs: seq<Utf8.Byte>): string {
    if bs == [] then [] else EscapeOctet(bs[0]) + EscapeOctets(bs[1..])
  }

  /** CGI-style escape of a key or value. */
  function Escape(s: string): string {
    EscapeOctets(Utf8.Encode(s))
  }

  predicate IsEscapedText(t: string) {
    forall i | 0 <= i < |t| :: IsEscapedChar(t[i])
  }

  lemma EscapeOctetIsEscapedText(b: Utf8.Byte)
    ensures IsEscapedText(EscapeOctet(b))
  {
    var d := HexDigits;
    assert forall i | 0 <= i < |d| :: Unreserved(d[i]);
  }

  lemma EscapedTextAppend(a: string, b: string)
    requires IsEscapedText(a) && IsEscapedText(b)
    ensures IsEscapedText(a + b)
  {
    assert forall i | |a| <= i < |a| + |b| :: (a + b)[i] == b[i - |a|];
  }

  lemma {:induction false} EscapeOctetsIsEscapedText(bs: seq<Utf8.Byte>)
    ensures IsEscapedText(EscapeOctets(bs))
  {
    if bs != [] {
      EscapeOctetIsEscapedText(bs[0]);
      EscapeOctetsIsEscapedText(bs[1..]);
      EscapedTextAppend(EscapeOctet(bs[0]), EscapeOctets(bs[1..]));
    }
  }

  /** An escaped text holds only unreserved characters, `+` and `%`. */
  lemma EscapeIsEscapedText(s: string)
    ensures IsEscapedText(Escape(s))
  {
    EscapeOctetsIsEscapedText(Utf8.Encode(s));
  }

  /**
   * Reads octets back: `+` is a space, `%HH` is the octet HH (either case),
   * any other character below U+0080 stands for itself; anything else, or a
   * `%` not followed by two hex digits, is malformed.
   */
  function UnescapeOctets(t: string): Option<seq<Utf8.Byte>>
    decreases |t|
  {
    if t == [] then Some([])
    else
      var step: Option<(Utf8.Byte, nat)> :=
        if t[0] == '+' then Some((0x20, 1))
        else if t[0] == '%' then
          if |t| >= 3 && IsHexDigit(t[1]) && IsHexDigit(t[2])
          then Some((HexValue(t[1]) * 16 + HexValue(t[2]), 3))
          else None
        else if t[0] as int < 0x80 then Some((t[0] as int, 1))
        else None;
      match step
      case None => None
      case Some((b, n)) =>
        match UnescapeOctets(t[n..])
        case None => None
        case Some(rest) => Some([b] + rest)
  }

  function Unescape(t: string): Option<string> {
    match UnescapeOctets(t)
    case None => None
    case Some(bs) => Utf8.Decode(bs)
  }

  lemma HexDigitsRoundTrip(b: Utf8.Byte)
    ensures IsHexDigit(HexDigits[b / 16]) && IsHexDigit(HexDigits[b % 16])
    ensures HexValue(HexDigits[b / 16]) * 16 + HexValue(HexDigits[b % 16]) == b
  {
    forall d | 0 <= d < 16
      ensures IsHexDigit(HexDigits[d]) && HexValue(HexDigits[d]) == d
    {
    }
  }

  /** The escape of an octet at the head of a text is read back as that octet. */
  lemma UnescapeEscapedOctet(b: Utf8.Byte, rest: string)
    ensures UnescapeOctets(EscapeOctet(b) + rest)
            == match UnescapeOctets(rest) case None => None case Some(r) => Some([b] + r)
  {
    var head := EscapeOctet(b);
    var t := head + rest;
    assert t[|head|..] == rest;
    if b == 0x20 {
    } else if Unreserved(b as char) {
    } else {
      HexDigitsRoundTrip(b);
      assert t[0] == '%' && t[1] == HexDigits[b / 16] && t[2] == HexDigits[b % 16];
    }
  }

  lemma {:induction false} UnescapeEscapeOctets(bs: seq<Utf8.Byte>)
    ensures UnescapeOctets(EscapeOctets(bs)) == Some(bs)
  {
    if bs != [] {
      UnescapeEscapedOctet(bs[0], EscapeOctets(bs[1..]));
      UnescapeEscapeOctets(bs[1..]);
      assert [bs[0]] + bs[1..] == bs;
    }
  }

  /** Round trip: unescaping an escaped text gives the original back. */
  lemma UnescapeEscape(s: string)
    ensures Unescape(Escape(s)) == Some(s)
  {
    UnescapeEscapeOctets(Utf8.Encode(s));
    Utf8.DecodeEncode(s);
  }

  /** An escaped text never holds the pair and key/value separators of a query. */
  lemma EscapeHasNoSeparators(s: string)
    ensures '&' !in Escape(s) && '=' !in Escape(s)
  {
    var r := Escape(s);
    EscapeIsEscapedText(s);
    assert forall i | 0 <= i < |r| :: r[i] != '&' && r[i] != '=' by {
      forall i | 0 <= i < |r| ensures r[i] != '&' && r[i] != '=' {
        assert IsEscapedChar(r[i]);
      }
    }
  }

  lemma {:induction false} EscapeOctetsAppend(a: seq<Utf8.Byte>, b: seq<Utf8.Byte>)
    ensures EscapeOctets(a + b) == EscapeOctets(a) + EscapeOctets(b)
  {
    if a == [] {
      assert a + b == b;
    } else {
      assert (a + b)[1..] == a[1..] + b;
      EscapeOctetsAppend(a[1..], b);
    }
  }

  /** Escaping works piece by piece: it distributes over concatenation. */
  lemma EscapeAppend(a: string, b: string)
    ensures Escape(a + b) == Escape(a) + Escape(b)
  {
    Utf8.EncodeAppend(a, b);
    EscapeOctetsAppend(Utf8.Encode(a), Utf8.Encode(b));
  }

  predicate IsUnreservedText(s: string) {
    forall i | 0 <= i < |s| :: Unreserved(s[i])
  }

  /** A text made only of unreserved characters is left untouched. */
  lemma {:induction false} EscapeUnreserved(s: string)
    requires IsUnreservedText(s)
    ensures Escape(s) == s
  {
    if s != [] {
      assert s == [s[0]] + s[1..];
      EscapeAppend([s[0]], s[1..]);
      EscapeUnreserved(s[1..]);
      assert Utf8.Encode([s[0]]) == [s[0] as int];
    }
  }

  /** A space becomes `+`. */
  lemma EscapeSpace()
    ensures Escape(" ") == "+"
  {
    assert Utf8.Encode(" ") == [0x20];
  }

  /** A character below U+0080 that is neither a space nor unreserved becomes `%HH`. */
  lemma EscapeReservedAscii(c: char)
    requires c as int < 0x80 && c != ' ' && !Unreserved(c)
    ensures Escape([c]) == ['%', HexDigits[c as int / 16], HexDigits[c as int % 16]]
  {
    assert Utf8.Encode([c]) == [c as int];
    assert (c as int) as char == c;
    assert EscapeOctets([c as int]) == EscapeOctet(c as int) + EscapeOctets([]);
  }
}
