/**
 * `urllib.parse.quote_plus(value, safe='')`: the value's UTF-8 bytes with
 * every byte outside the unreserved set of RFC 3986 section 2.3 written as
 * `%XX` (upper-case hexadecimal, RFC 3986 section 2.1), except that a space
 * becomes `+` as in HTML form encoding.
 */
module FormEncoding {
  import opened Wrappers
  import opened Bytes

  /** The bytes `quote` never escapes: ASCII letters, digits and `_.-~`. */
  predicate Unreserved(b: int) {
    || 'A' as int <= b <= 'Z' as int
    || 'a' as int <= b <= 'z' as int
    || '0' as int <= b <= '9' as int
    || b == '_' as int || b == '.' as int || b == '-' as int || b == '~' as int
  }

  /** The characters an encoded value can contain. */
  predicate FormSafe(c: char) {
    Unreserved(c as int) || c == '+' || c == '%'
  }

  function HexDigit(d: nat): (c: char)
    requires d < 16
    ensures Unreserved(c as int)
  {
    if d < 10 then ('0' as int + d) as char else ('A' as int + (d - 10)) as char
  }

  function HexValue(c: char): (r: Option<nat>)
    ensures r.Some? ==> r.value < 16
  {
    if '0' <= c <= '9' then Some(c as int - '0' as int)
    else if 'A' <= c <= 'F' then Some(c as int - 'A' as int + 10)
    else if 'a' <= c <= 'f' then Some(c as int - 'a' as int + 10)
    else None
  }

  function QuoteByte(b: byte): (r: string)
    ensures 1 <= |r| <= 3
    ensures forall k :: 0 <= k < |r| ==> FormSafe(r[k])
  {
    if Unreserved(b) then [b as char]
    else if b == 0x20 then "+"
    else ['%', HexDigit(b / 16), HexDigit(b % 16)]
  }

  function QuoteBytes(bs: seq<byte>): (r: string)
    ensures forall k :: 0 <= k < |r| ==> FormSafe(r[k])
  {
    if |bs| == 0 then "" else QuoteByte(bs[0]) + QuoteBytes(bs[1..])
  }

  /** `quote_plus(s, safe='')`. */
  function QuotePlus(s: string): (r: string)
    ensures forall k :: 0 <= k < |r| ==> FormSafe(r[k])
    ensures '&' !in r && '=' !in r && ' ' !in r
  {
    var r := QuoteBytes(Utf8Encode(s));
    assert forall k :: 0 <= k < |r| ==> r[k] != '&' && r[k] != '=' && r[k] != ' ' by {
      forall k | 0 <= k < |r| ensures r[k] != '&' && r[k] != '=' && r[k] != ' ' {
        assert FormSafe(r[k]);
      }
    }
    r
  }

  /**
   * The inverse of `QuoteBytes`: `+` is a space, `%XX` a byte, an unreserved
   * character itself. Anything else is not a form-encoded value.
   */
  function FormDecode(s: string): Option<seq<byte>>
    decreases |s|
  {
    if |s| == 0 then Some([])
    else if s[0] == '+' then
      match FormDecode(s[1..])
      case Some(rest) => Some([0x20] + rest)
      case None => None
    else if s[0] == '%' then
      if |s| < 3 then None
      else
        match (HexValue(s[1]), HexValue(s[2]), FormDecode(s[3..]))
        case (Some(hi), Some(lo), Some(rest)) => Some([hi * 16 + lo] + rest)
        case _ => None
    else if Unreserved(s[0] as int) then
      match FormDecode(s[1..])
      case Some(rest) => Some([s[0] as int] + rest)
      case None => None
    else None
  }

  lemma DecodeQuotedByte(b: byte, rest: string, tail: seq<byte>)
    requires FormDecode(rest) == Some(tail)
    ensures FormDecode(QuoteByte(b) + rest) == Some([b] + tail)
  {
    var q := QuoteByte(b);
    if Unreserved(b) {
      assert (q + rest)[1..] == rest;
    } else if b == 0x20 {
      assert (q + rest)[1..] == rest;
    } else {
      assert (q + rest)[3..] == rest;
      assert HexValue(HexDigit(b / 16)) == Some(b / 16);
      assert HexValue(HexDigit(b % 16)) == Some(b % 16);
    }
  }

  /** Form encoding loses nothing: decoding the encoding gives the bytes back. */
  lemma {:induction false} FormRoundTrip(bs: seq<byte>)
    ensures FormDecode(QuoteBytes(bs)) == Some(bs)
    decreases |bs|
  {
    if |bs| > 0 {
      FormRoundTrip(bs[1..]);
      DecodeQuotedByte(bs[0], QuoteBytes(bs[1..]), bs[1..]);
      assert [bs[0]] + bs[1..] == bs;
    }
  }

  /** Different values never share an encoding. */
  lemma QuotePlusInjective(s1: string, s2: string)
    requires QuotePlus(s1) == QuotePlus(s2)
    ensures Utf8Encode(s1) == Utf8Encode(s2)
  {
    FormRoundTrip(Utf8Encode(s1));
    FormRoundTrip(Utf8Encode(s2));
  }
}
