/**
 * The QR token codec: `base64url(header).base64url(payload).base64url(mac)`,
 * where the header is the fixed JSON object `{"alg":"HS256","typ":"QR"}`,
 * the payload is any JSON value and the MAC is HMAC-SHA256 under the
 * configured `QR_SECRET` over the first two segments joined by a dot.
 */
module QrCodec {
  import opened Wrappers
  import opened PyText
  import opened Bytes
  import opened Base64
  import opened Json

  /**
   * What the codec needs from the application: the `QR_SECRET` text, the
   * HMAC-SHA256 digest as a function of key bytes and message bytes, and
   * the JSON serialiser.
   */
  datatype Keys = Keys(secret: string, hmac: (seq<byte>, seq<byte>) -> seq<byte>, json: Codec)

  /** The header every token carries. */
  const Header: Json := JObj([("alg", JStr("HS256")), ("typ", JStr("QR"))])

  /** `_b64url(json.dumps(j, separators=(",", ":"), ensure_ascii=False).encode())`. */
  function Segment(k: Keys, j: Json): (s: string)
    ensures InAlphabet(s) && '.' !in s
  {
    EncodeUrl(Utf8Encode(k.json.dumps(j)))
  }

  /** `_b64url(hmac.new(secret, f"{h}.{p}".encode(), sha256).digest())`. */
  function Mac(k: Keys, h: string, p: string): (s: string)
    ensures InAlphabet(s) && '.' !in s
  {
    EncodeUrl(k.hmac(Utf8Encode(k.secret), Utf8Encode(h + "." + p)))
  }

  /** Characters of the base 64 alphabets are ASCII. */
  lemma AlphabetIsAscii(s: string)
    requires InAlphabet(s)
    ensures IsAscii(s)
  {
    forall i | 0 <= i < |s|
      ensures s[i] as int < 0x80
    {
      assert SextetValue(s[i]).Some?;
    }
  }

  /**
   * `sign_payload(payload)`: three dot-free segments, the header, the
   * payload and the MAC of the first two.
   */
  function SignPayload(k: Keys, payload: Json): (token: string)
    ensures var parts := Split(token, '.');
      && |parts| == 3
      && parts[0] == Segment(k, Header)
      && parts[1] == Segment(k, payload)
      && parts[2] == Mac(k, parts[0], parts[1])
  {
    var h := Segment(k, Header);
    var p := Segment(k, payload);
    var token := h + "." + p + "." + Mac(k, h, p);
    ThreeSegments(h, p, Mac(k, h, p));
    token
  }

  /** Three dot-free segments joined by dots split back into exactly those segments. */
  lemma ThreeSegments(a: string, b: string, c: string)
    requires '.' !in a && '.' !in b && '.' !in c
    ensures Split(a + "." + b + "." + c, '.') == [a, b, c]
  {
    JoinCons(".", a, [b, c]);
    JoinCons(".", b, [c]);
    assert Join(".", [a, b, c]) == a + "." + b + "." + c;
    SplitJoin([a, b, c], '.');
  }

  /** The result of `verify_token`: `(True, payload, "OK")`, `(False, None, "Invalid signature")` or `(False, None, "Malformed QR: …")`. */
  datatype Verdict = Valid(payload: Json) | InvalidSignature | Malformed {
    /** The message text; the exception's own text after "Malformed QR: " is not modelled. */
    function Message(): string {
      match this
      case Valid(_) => "OK"
      case InvalidSignature => "Invalid signature"
      case Malformed => "Malformed QR: "
    }
  }

  /**
   * `verify_token(token)`. Anything other than three segments cannot be
   * unpacked; a non-ASCII signature segment makes `compare_digest` raise;
   * the MAC is compared before the payload is decoded; bad base 64 or bad
   * JSON in the payload raises. Every exception becomes `Malformed`.
   */
  function VerifyToken(k: Keys, token: string): (r: Verdict)
    ensures |Split(token, '.')| != 3 ==> r == Malformed
    ensures r.Valid? ==>
      var parts := Split(token, '.');
      && |parts| == 3
      && parts[2] == Mac(k, parts[0], parts[1])
      && token == parts[0] + "." + parts[1] + "." + parts[2]
      && DecodeUrl(parts[1]).Some?
      && k.json.loads(DecodeUrl(parts[1]).value) == Some(r.payload)
    ensures r == InvalidSignature <==>
      var parts := Split(token, '.');
      |parts| == 3 && IsAscii(parts[2]) && parts[2] != Mac(k, parts[0], parts[1])
    ensures
      var parts := Split(token, '.');
      |parts| == 3 && IsAscii(parts[2]) && parts[2] == Mac(k, parts[0], parts[1])
      && DecodeUrl(parts[1]).Some? && k.json.loads(DecodeUrl(parts[1]).value).Some? ==>
      r == Valid(k.json.loads(DecodeUrl(parts[1]).value).value)
  {
    var parts := Split(token, '.');
    if |parts| != 3 then Malformed
    else
      ThreePartsJoin(token);
      CheckSegments(k, parts[0], parts[1], parts[2])
  }

  /** The three segments a token splits into, joined back with dots, are the token. */
  lemma ThreePartsJoin(token: string)
    requires |Split(token, '.')| == 3
    ensures var parts := Split(token, '.');
      token == parts[0] + "." + parts[1] + "." + parts[2]
  {
    var parts := Split(token, '.');
    assert parts == [parts[0]] + [parts[1], parts[2]];
    JoinCons(".", parts[0], [parts[1], parts[2]]);
    JoinCons(".", parts[1], [parts[2]]);
  }

  /** The checks after unpacking: signature text, MAC, then base 64 and JSON of the payload segment. */
  function CheckSegments(k: Keys, h: string, p: string, sig: string): (r: Verdict)
    ensures r.Valid? ==> sig == Mac(k, h, p) && DecodeUrl(p).Some? && k.json.loads(DecodeUrl(p).value) == Some(r.payload)
    ensures r == InvalidSignature <==> IsAscii(sig) && sig != Mac(k, h, p)
    ensures IsAscii(sig) && sig == Mac(k, h, p) && DecodeUrl(p).Some? && k.json.loads(DecodeUrl(p).value).Some? ==>
      r == Valid(k.json.loads(DecodeUrl(p).value).value)
  {
    if !IsAscii(sig) then Malformed
    else if Mac(k, h, p) != sig then InvalidSignature
    else
      match DecodeUrl(p)
      case None => Malformed
      case Some(bytes) =>
        match k.json.loads(bytes)
        case None => Malformed
        case Some(j) => Valid(j)
  }

  /** A token signed under the same keys verifies and yields the payload it was signed with. */
  lemma SignThenVerify(k: Keys, payload: Json)
    requires Lawful(k.json)
    ensures VerifyToken(k, SignPayload(k, payload)) == Valid(payload)
  {
    var token := SignPayload(k, payload);
    var parts := Split(token, '.');
    AlphabetIsAscii(parts[2]);
    UrlRoundTrip(Utf8Encode(k.json.dumps(payload)));
    assert k.json.loads(Utf8Encode(k.json.dumps(payload))) == Some(payload);
  }

  /**
   * The MAC is checked before anything is decoded: three dot-free segments
   * whose last is ASCII but not the MAC of the first two are refused as a
   * bad signature, whatever the payload segment holds.
   */
  lemma BadMacRejectedBeforeDecoding(k: Keys, h: string, p: string, sig: string)
    requires '.' !in h && '.' !in p && '.' !in sig
    requires IsAscii(sig) && sig != Mac(k, h, p)
    ensures VerifyToken(k, h + "." + p + "." + sig) == InvalidSignature
  {
    ThreeSegments(h, p, sig);
  }

  /** Under a lawful serialiser, different payloads never get the same token. */
  lemma TokensDistinguishPayloads(k: Keys, a: Json, b: Json)
    requires Lawful(k.json)
    requires SignPayload(k, a) == SignPayload(k, b)
    ensures a == b
  {
    UrlInjective(Utf8Encode(k.json.dumps(a)), Utf8Encode(k.json.dumps(b)));
    assert k.json.loads(Utf8Encode(k.json.dumps(a))) == Some(a);
    assert k.json.loads(Utf8Encode(k.json.dumps(b))) == Some(b);
  }
}
