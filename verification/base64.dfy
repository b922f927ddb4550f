/**
 * Base 64 as Python's `base64` module applies it: the standard alphabet of
 * RFC 4648 section 4 and the URL- and filename-safe alphabet of section 5,
 * with the `=` padding of section 3.2 added by the encoder and re-added by
 * the QR codec before decoding.
 */
module Base64 {
  import opened Wrappers
  import opened Bytes

  datatype Alphabet = Standard | UrlSafe

  /** The character for a 6-bit value. */
  function SextetChar(a: Alphabet, v: nat): (c: char)
    requires v < 64
    ensures c != '=' && c != '.'
  {
    if v < 26 then ('A' as int + v) as char
    else if v < 52 then ('a' as int + (v - 26)) as char
    else if v < 62 then ('0' as int + (v - 52)) as char
    else if v == 62 then (if a == UrlSafe then '-' else '+')
    else (if a == UrlSafe then '_' else '/')
  }

  /**
   * The 6-bit value of a character. `urlsafe_b64decode` maps `-` and `_` onto
   * `+` and `/` before decoding, so both alphabets are accepted.
   */
  function SextetValue(c: char): (r: Option<nat>)
    ensures r.Some? ==> r.value < 64
  {
    if 'A' <= c <= 'Z' then Some(c as int - 'A' as int)
    else if 'a' <= c <= 'z' then Some(c as int - 'a' as int + 26)
    else if '0' <= c <= '9' then Some(c as int - '0' as int + 52)
    else if c == '-' || c == '+' then Some(62)
    else if c == '_' || c == '/' then Some(63)
    else None
  }

  lemma SextetRoundTrip(a: Alphabet, v: nat)
    requires v < 64
    ensures SextetValue(SextetChar(a, v)) == Some(v)
  {
  }

  predicate InAlphabet(s: string) {
    forall k :: 0 <= k < |s| ==> SextetValue(s[k]).Some?
  }

  /** Base 64 of `b` with the trailing padding left off. */
  function EncodeUnpadded(a: Alphabet, b: seq<byte>): (r: string)
    ensures InAlphabet(r)
    ensures forall k :: 0 <= k < |r| ==> r[k] != '=' && r[k] != '.'
    ensures |r| % 4 != 1
    ensures |b| > 0 ==> |r| > 0
    decreases |b|
  {
    if |b| == 0 then ""
    else if |b| == 1 then
      [SextetChar(a, b[0] / 4), SextetChar(a, (b[0] % 4) * 16)]
    else if |b| == 2 then
      [SextetChar(a, b[0] / 4), SextetChar(a, (b[0] % 4) * 16 + b[1] / 16),
       SextetChar(a, (b[1] % 16) * 4)]
    else EncodeGroup(a, b[0], b[1], b[2]) + EncodeUnpadded(a, b[3..])
  }

  /** Four characters for three bytes: 24 bits read as four 6-bit values. */
  function EncodeGroup(a: Alphabet, b0: byte, b1: byte, b2: byte): (r: string)
    ensures |r| == 4 && InAlphabet(r)
    ensures forall k :: 0 <= k < |r| ==> r[k] != '=' && r[k] != '.'
  {
    [SextetChar(a, b0 / 4), SextetChar(a, (b0 % 4) * 16 + b1 / 16),
     SextetChar(a, (b1 % 16) * 4 + b2 / 64), SextetChar(a, b2 % 64)]
  }

  /** The padding Python's decoder needs: `'=' * (-len(s) % 4)`. */
  function Pad(s: string): (r: string)
    ensures (|s| + |r|) % 4 == 0 && |r| < 4
    ensures forall k :: 0 <= k < |r| ==> r[k] == '='
  {
    seq((-|s|) % 4, _ => '=')
  }

  /** `s.rstrip(c)`. */
  function RStrip(s: string, c: char): (r: string)
    ensures r <= s
    ensures r != [] ==> r[|r| - 1] != c
    ensures forall k :: |r| <= k < |s| ==> s[k] == c
  {
    if |s| > 0 && s[|s| - 1] == c then RStrip(s[..|s| - 1], c) else s
  }

  /** `base64.b64encode(b)`: standard alphabet, padded to a multiple of four. */
  function Encode(b: seq<byte>): (r: string)
    ensures |r| % 4 == 0
  {
    var e := EncodeUnpadded(Standard, b);
    e + Pad(e)
  }

  /** `urlsafe_b64encode(b).decode().rstrip("=")`, the QR codec's `_b64url`. */
  function EncodeUrl(b: seq<byte>): (r: string)
    ensures InAlphabet(r) && '.' !in r && '=' !in r
  {
    var e := EncodeUnpadded(UrlSafe, b);
    RStripPadding(e);
    RStrip(e + Pad(e), '=')
  }

  /** Stripping `=` from a padded encoding gives back the unpadded encoding. */
  lemma RStripPadding(e: string)
    requires forall k :: 0 <= k < |e| ==> e[k] != '='
    ensures RStrip(e + Pad(e), '=') == e
  {
    RStripTrailing(e, Pad(e), '=');
  }

  lemma {:induction false} RStripTrailing(e: string, p: string, c: char)
    requires e == [] || e[|e| - 1] != c
    requires forall k :: 0 <= k < |p| ==> p[k] == c
    ensures RStrip(e + p, c) == e
    decreases |p|
  {
    if |p| == 0 {
      assert e + p == e;
    } else {
      assert (e + p)[..|e + p| - 1] == e + p[..|p| - 1];
      RStripTrailing(e, p[..|p| - 1], c);
    }
  }

  /** Decodes one complete four-character quantum into three bytes. */
  function DecodeQuad(q: string): (r: Option<seq<byte>>)
    requires |q| == 4
    ensures r.Some? ==> |r.value| == 3
  {
    match (SextetValue(q[0]), SextetValue(q[1]), SextetValue(q[2]), SextetValue(q[3]))
    case (Some(v0), Some(v1), Some(v2), Some(v3)) =>
      Some([v0 * 4 + v1 / 16, (v1 % 16) * 16 + v2 / 4, (v2 % 4) * 64 + v3])
    case _ => None
  }

  /** Decodes the final quantum, which may end in one or two `=`. */
  function DecodeLastQuad(q: string): (r: Option<seq<byte>>)
    requires |q| == 4
    ensures r.Some? ==> 1 <= |r.value| <= 3
  {
    if q[3] != '=' then DecodeQuad(q)
    else if q[2] != '=' then
      match (SextetValue(q[0]), SextetValue(q[1]), SextetValue(q[2]))
      case (Some(v0), Some(v1), Some(v2)) => Some([v0 * 4 + v1 / 16, (v1 % 16) * 16 + v2 / 4])
      case _ => None
    else
      match (SextetValue(q[0]), SextetValue(q[1]))
      case (Some(v0), Some(v1)) => Some([v0 * 4 + v1 / 16])
      case _ => None
  }

  /**
   * Decodes padded base 64 strictly: a length that is not a multiple of four,
   * a character outside both alphabets, or padding before the final quantum
   * is an error. Python's non-validating decoder is more lenient: it drops
   * characters outside the alphabet and ignores what follows the padding,
   * so some texts rejected here decode there.
   */
  function DecodePadded(t: string): (r: Option<seq<byte>>)
    decreases |t|
  {
    if |t| == 0 then Some([])
    else if |t| < 4 then None
    else if |t| == 4 then DecodeLastQuad(t)
    else
      match (DecodeQuad(t[..4]), DecodePadded(t[4..]))
      case (Some(head), Some(tail)) => Some(head + tail)
      case _ => None
  }

  /** `_b64url_decode(s)`: re-add the padding, then decode (strictly, as above). */
  function DecodeUrl(s: string): Option<seq<byte>> {
    DecodePadded(s + Pad(s))
  }

  /** The bit arithmetic of one three-byte group is undone by decoding. */
  lemma GroupArithmetic(b0: byte, b1: byte, b2: byte)
    ensures var v1 := (b0 % 4) * 16 + b1 / 16;
            var v2 := (b1 % 16) * 4 + b2 / 64;
            && (b0 / 4) * 4 + v1 / 16 == b0
            && (v1 % 16) * 16 + v2 / 4 == b1
            && (v2 % 4) * 64 + b2 % 64 == b2
  {
    var v1 := (b0 % 4) * 16 + b1 / 16;
    var v2 := (b1 % 16) * 4 + b2 / 64;
    assert v1 / 16 == b0 % 4 && v1 % 16 == b1 / 16;
    assert v2 / 4 == b1 % 16 && v2 % 4 == b2 / 64;
  }

  lemma DecodeOneByte(a: Alphabet, b: seq<byte>)
    requires |b| == 1
    ensures var e := EncodeUnpadded(a, b); DecodePadded(e + Pad(e)) == Some(b)
  {
    var e := EncodeUnpadded(a, b);
    var t := e + Pad(e);
    SextetRoundTrip(a, b[0] / 4);
    SextetRoundTrip(a, (b[0] % 4) * 16);
    GroupArithmetic(b[0], 0, 0);
    assert |Pad(e)| == 2;
    assert |t| == 4 && t[0] == e[0] && t[1] == e[1] && t[2] == '=' && t[3] == '=';
    assert DecodeLastQuad(t) == Some([b[0]]);
    assert [b[0]] == b;
  }

  lemma DecodeTwoBytes(a: Alphabet, b: seq<byte>)
    requires |b| == 2
    ensures var e := EncodeUnpadded(a, b); DecodePadded(e + Pad(e)) == Some(b)
  {
    var e := EncodeUnpadded(a, b);
    var t := e + Pad(e);
    SextetRoundTrip(a, b[0] / 4);
    SextetRoundTrip(a, (b[0] % 4) * 16 + b[1] / 16);
    SextetRoundTrip(a, (b[1] % 16) * 4);
    GroupArithmetic(b[0], b[1], 0);
    assert |Pad(e)| == 1;
    assert |t| == 4 && t[0] == e[0] && t[1] == e[1] && t[2] == e[2] && t[3] == '=';
    assert DecodeLastQuad(t) == Some([b[0], b[1]]);
    assert [b[0], b[1]] == b;
  }

  lemma DecodeGroup(a: Alphabet, b0: byte, b1: byte, b2: byte)
    ensures DecodeQuad(EncodeGroup(a, b0, b1, b2)) == Some([b0, b1, b2])
  {
    SextetRoundTrip(a, b0 / 4);
    SextetRoundTrip(a, (b0 % 4) * 16 + b1 / 16);
    SextetRoundTrip(a, (b1 % 16) * 4 + b2 / 64);
    SextetRoundTrip(a, b2 % 64);
    GroupArithmetic(b0, b1, b2);
  }

  /** A full group at the end of the text decodes as the last quantum. */
  lemma LastGroupDecodes(a: Alphabet, b0: byte, b1: byte, b2: byte)
    ensures DecodePadded(EncodeGroup(a, b0, b1, b2)) == Some([b0, b1, b2])
  {
    var g := EncodeGroup(a, b0, b1, b2);
    assert g[3] != '=';
    DecodeGroup(a, b0, b1, b2);
  }

  lemma PadSkipsQuantum(g: string, rest: string)
    requires |g| == 4
    ensures Pad(g + rest) == Pad(rest)
  {
    var n := |rest|;
    assert |g + rest| == n + 4;
    assert (-(n + 4)) % 4 == (-n) % 4 by {
      assert -(n + 4) == (-n) - 4;
    }
  }

  /** Decoding splits off a leading full quantum when more text follows. */
  lemma DecodeAfterGroup(g: string, t: string, head: seq<byte>, tail: seq<byte>)
    requires |g| == 4 && |t| > 0
    requires DecodeQuad(g) == Some(head) && DecodePadded(t) == Some(tail)
    ensures DecodePadded(g + t) == Some(head + tail)
  {
    assert (g + t)[..4] == g;
    assert (g + t)[4..] == t;
  }

  lemma {:induction false} DecodeEncodedQuads(a: Alphabet, b: seq<byte>)
    ensures DecodePadded(EncodeUnpadded(a, b) + Pad(EncodeUnpadded(a, b))) == Some(b)
    decreases |b|, 1
  {
    if |b| == 0 {
    } else if |b| == 1 {
      DecodeOneByte(a, b);
    } else if |b| == 2 {
      DecodeTwoBytes(a, b);
    } else if |b| == 3 {
      DecodeThreeBytes(a, b);
    } else {
      DecodeEncodedGroups(a, b);
    }
  }

  lemma {:induction false} DecodeEncodedGroups(a: Alphabet, b: seq<byte>)
    requires |b| > 3
    ensures DecodePadded(EncodeUnpadded(a, b) + Pad(EncodeUnpadded(a, b))) == Some(b)
    decreases |b|, 0
  {
    var g := EncodeGroup(a, b[0], b[1], b[2]);
    var rest := EncodeUnpadded(a, b[3..]);
    var e := EncodeUnpadded(a, b);
    assert e == g + rest;
    assert Pad(e) == Pad(rest) by {
      PadSkipsQuantum(g, rest);
    }
    assert e + Pad(e) == g + (rest + Pad(rest));
    DecodeGroup(a, b[0], b[1], b[2]);
    DecodeEncodedQuads(a, b[3..]);
    DecodeAfterGroup(g, rest + Pad(rest), [b[0], b[1], b[2]], b[3..]);
    assert b == [b[0], b[1], b[2]] + b[3..];
  }

  /** Exactly three bytes encode to one full group and no padding. */
  lemma DecodeThreeBytes(a: Alphabet, b: seq<byte>)
    requires |b| == 3
    ensures DecodePadded(EncodeUnpadded(a, b) + Pad(EncodeUnpadded(a, b))) == Some(b)
  {
    var g := EncodeGroup(a, b[0], b[1], b[2]);
    var e := EncodeUnpadded(a, b);
    assert EncodeUnpadded(a, b[3..]) == "";
    assert e == g;
    assert Pad(e) == "";
    assert e + Pad(e) == g;
    LastGroupDecodes(a, b[0], b[1], b[2]);
    assert b == [b[0], b[1], b[2]];
  }

  /** `_b64url_decode(_b64url(b)) == b`. */
  lemma UrlRoundTrip(b: seq<byte>)
    ensures DecodeUrl(EncodeUrl(b)) == Some(b)
  {
    var e := EncodeUnpadded(UrlSafe, b);
    RStripPadding(e);
    DecodeEncodedQuads(UrlSafe, b);
  }

  /** Decoding `base64.b64encode(b)` gives `b` back. */
  lemma StandardRoundTrip(b: seq<byte>)
    ensures DecodePadded(Encode(b)) == Some(b)
  {
    DecodeEncodedQuads(Standard, b);
  }

  /** `_b64url` is injective: different byte strings get different encodings. */
  lemma UrlInjective(b1: seq<byte>, b2: seq<byte>)
    requires EncodeUrl(b1) == EncodeUrl(b2)
    ensures b1 == b2
  {
    UrlRoundTrip(b1);
    UrlRoundTrip(b2);
  }
}
