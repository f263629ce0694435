/** License tokens: `generateLicense(nonce, expiresIn)`
    (app/api/generate/route.ts:16-32), base64 of the JSON text of
    `{nonce, expires, issued, signature}` with an HMAC-SHA256 (RFC 2104)
    signature over the JSON text of `{nonce, expires, issued}`. */
module Licenses {
  import opened Wrappers
  import opened JsValues

  /** Two successive `Date.now()` readings in milliseconds: the handler reads
      the clock twice on each path (once per challenge offer; once for
      `expires` and once for `issued`). */
  datatype Clock = Clock(first: int, second: int)

  /** The encoding and cryptographic primitives, left uninterpreted:
      `JSON.stringify` / `JSON.parse` (`None` when it throws), base64 of the
      UTF-8 bytes (RFC 4648, section 4) and its decoder, and the hex digest
      of HMAC-SHA256 under a key. */
  datatype Codec = Codec(
    stringify: Json -> string,
    parse: string -> Option<Json>,
    base64: string -> string,
    unbase64: string -> Option<string>,
    hmacSha256Hex: (string, string) -> string)

  /** Decoding undoes encoding for one particular value: its JSON text
      parses back to it, and the base64 of that text decodes back to the
      text. Stated per value, not for every `Json`, so that real codecs
      (which cannot render every real number exactly) can meet it. */
  ghost predicate RoundTripsOn(c: Codec, j: Json)
  {
    && c.parse(c.stringify(j)) == Some(j)
    && c.unbase64(c.base64(c.stringify(j))) == Some(c.stringify(j))
  }

  /** The signing key when `JWT_SECRET` is unset or empty. */
  const DefaultSecret := "default-secret-change-me"

  /** `process.env.JWT_SECRET || 'default-secret-change-me'`. */
  function Secret(jwtSecret: Option<string>): (key: string)
    ensures key != ""
    ensures jwtSecret.Some? && jwtSecret.value != "" ==> key == jwtSecret.value
  {
    if jwtSecret.Some? && jwtSecret.value != "" then jwtSecret.value else DefaultSecret
  }

  /** The signed part of a license, fields in the source's order. */
  function Payload(nonce: Json, expires: real, issued: real): Json
  {
    JObj([("nonce", nonce), ("expires", JNum(expires)), ("issued", JNum(issued))])
  }

  /** The fields a reader finds in a license. */
  datatype LicenseFields = LicenseFields(nonce: Json, expires: real, issued: real, signature: string)

  /** Reads a license back: base64-decode, parse, and pick the four fields. */
  function ReadLicense(c: Codec, token: string): Option<LicenseFields>
  {
    match c.unbase64(token)
    case None => None
    case Some(text) =>
      match c.parse(text)
      case Some(JObj(m)) =>
        var nonce, expires, issued, signature :=
          Get(m, "nonce"), Get(m, "expires"), Get(m, "issued"), Get(m, "signature");
        if nonce.Some? && expires.Some? && expires.value.JNum? && issued.Some? && issued.value.JNum?
           && signature.Some? && signature.value.JStr?
        then Some(LicenseFields(nonce.value, expires.value.x, issued.value.x, signature.value.s))
        else None
      case _ => None
  }

  /** A holder of the key recomputes the signature over the other three fields. */
  predicate SignatureMatches(c: Codec, key: string, f: LicenseFields)
  {
    f.signature == c.hmacSha256Hex(key, c.stringify(Payload(f.nonce, f.expires, f.issued)))
  }

  /** The object `generateLicense` encodes: the payload plus its signature. */
  function SignedLicense(nonce: Json, ttl: int, clock: Clock, jwtSecret: Option<string>, c: Codec): Json
  {
    var payload := Payload(nonce, (clock.first + ttl * 1000) as real, clock.second as real);
    JObj(payload.members + [("signature", JStr(c.hmacSha256Hex(Secret(jwtSecret), c.stringify(payload))))])
  }

  /** `generateLicense(nonce, ttl)`: `expires` is the first clock reading plus
      the lifetime, `issued` the second reading, both in milliseconds. When
      the codec round-trips the signed object, a reader gets these fields
      back and can recompute the signature. */
  function GenerateLicense(nonce: Json, ttl: int, clock: Clock, jwtSecret: Option<string>, c: Codec): (token: string)
    ensures RoundTripsOn(c, SignedLicense(nonce, ttl, clock, jwtSecret, c)) ==>
      var f := ReadLicense(c, token);
      && f.Some?
      && f.value.nonce == nonce
      && f.value.expires == (clock.first + ttl * 1000) as real
      && f.value.issued == clock.second as real
      && SignatureMatches(c, Secret(jwtSecret), f.value)
  {
    var payload := Payload(nonce, (clock.first + ttl * 1000) as real, clock.second as real);
    var signature := c.hmacSha256Hex(Secret(jwtSecret), c.stringify(payload));
    SignedMembers(nonce, (clock.first + ttl * 1000) as real, clock.second as real, signature);
    c.base64(c.stringify(SignedLicense(nonce, ttl, clock, jwtSecret, c)))
  }

  /** The premise of `GenerateLicense` excludes no input: whatever
      `JSON.stringify`, base64 and HMAC a codec uses, choosing its decoders
      suitably round-trips the very object it signs. */
  lemma RoundTripsOnSatisfiable(nonce: Json, ttl: int, clock: Clock, jwtSecret: Option<string>, c0: Codec)
    ensures exists c: Codec ::
              && c.stringify == c0.stringify && c.base64 == c0.base64
              && c.hmacSha256Hex == c0.hmacSha256Hex
              && RoundTripsOn(c, SignedLicense(nonce, ttl, clock, jwtSecret, c))
  {
    var signed := SignedLicense(nonce, ttl, clock, jwtSecret, c0);
    var c := c0.(parse := _ => Some(signed), unbase64 := _ => Some(c0.stringify(signed)));
    assert SignedLicense(nonce, ttl, clock, jwtSecret, c) == signed;
    assert RoundTripsOn(c, signed);
  }

  /** Property lookup in the signed object finds each of the four fields. */
  lemma SignedMembers(nonce: Json, expires: real, issued: real, signature: string)
    ensures var m := Payload(nonce, expires, issued).members + [("signature", JStr(signature))];
      && Get(m, "nonce") == Some(nonce)
      && Get(m, "expires") == Some(JNum(expires))
      && Get(m, "issued") == Some(JNum(issued))
      && Get(m, "signature") == Some(JStr(signature))
  {
    var m1 := [("nonce", nonce)];
    var m2 := m1 + [("expires", JNum(expires))];
    var m3 := m2 + [("issued", JNum(issued))];
    var m := m3 + [("signature", JStr(signature))];
    assert Payload(nonce, expires, issued).members == m3;
    assert m[..3] == m3 && m3[..2] == m2 && m2[..1] == m1;
    assert Get(m, "nonce") == Get(m3, "nonce") == Get(m2, "nonce") == Get(m1, "nonce");
    assert Get(m, "expires") == Get(m3, "expires") == Get(m2, "expires");
  }

  /** With a single clock reading the license lives exactly `ttl` seconds,
      counted in milliseconds; if the clock advanced between the two
      readings, it lives less. */
  lemma LicenseLifetime(nonce: Json, ttl: int, clock: Clock, jwtSecret: Option<string>, c: Codec)
    requires RoundTripsOn(c, SignedLicense(nonce, ttl, clock, jwtSecret, c))
    requires clock.first <= clock.second
    ensures var f := ReadLicense(c, GenerateLicense(nonce, ttl, clock, jwtSecret, c)).value;
      f.expires <= f.issued + (ttl * 1000) as real
      && (clock.first == clock.second ==> f.expires == f.issued + (ttl * 1000) as real)
  {
  }
}
