/** Access tokens in the compact form of section 3.1 of RFC 7515, and the published key set. */
module Jwt {
  import opened Wrappers
  import opened Text
  import opened Base64Url

  const DEFAULT_ACCESS_TOKEN_EXPIRY_SECONDS := 900
  const FALLBACK_KEY_ID := "layr-ed25519-v1"
  const SEGMENTS := 3

  /** The claims the signer fills in; the others travel in `custom`. */
  datatype Claims = Claims(
    subject: string, role: string, issuer: string, audience: string,
    issuedAt: int, notBefore: int, expiresAt: int, jwtId: string, custom: string)

  /** JSON and Ed25519, kept abstract. */
  datatype Codec = Codec(
    encodeClaims: Claims -> seq<byte>,
    decodeClaims: seq<byte> -> Option<Claims>,
    encodeHeader: string -> seq<byte>,
    decodeHeaderKeyId: seq<byte> -> Option<string>,
    verify: (seq<byte>, string, seq<byte>) -> bool)

  datatype Signer = Signer(keyId: string, publicKey: seq<byte>, sign: string -> seq<byte>)

  ghost predicate IsCodec(codec: Codec, signer: Signer)
  {
    && (forall claims :: codec.decodeClaims(codec.encodeClaims(claims)) == Some(claims))
    && (forall keyId :: codec.decodeHeaderKeyId(codec.encodeHeader(keyId)) == Some(keyId))
    && (forall input :: codec.verify(signer.publicKey, input, signer.sign(input)))
  }

  /* ---------- Issuing ---------- */

  /** What an access token asserts: the given claims, with the blanks filled. */
  function IssuedClaims(claims: Claims, handle: string, now: int, expirySeconds: Option<int>, tokenId: string): (c: Claims)
  {
    var lifetime := if expirySeconds.Some? && expirySeconds.value > 0 then expirySeconds.value
                    else DEFAULT_ACCESS_TOKEN_EXPIRY_SECONDS;
    Claims(claims.subject,
           if claims.role == "" then "authenticated" else claims.role,
           if claims.issuer == "" then handle else claims.issuer,
           if claims.audience == "" then handle + ":user" else claims.audience,
           if claims.issuedAt == 0 then now else claims.issuedAt,
           if claims.notBefore == 0 then now else claims.notBefore,
           if claims.expiresAt == 0 then now + lifetime else claims.expiresAt,
           if claims.jwtId == "" then tokenId else claims.jwtId,
           claims.custom)
  }

  /** The signer's constructor: the first custom key id unless it is blank, else one made from the project's slug. */
  function ResolvedKeyId(slug: string, customKeyIds: seq<string>): (keyId: string)
    ensures keyId != ""
  {
    if |customKeyIds| > 0 && customKeyIds[0] != "" then customKeyIds[0]
    else (if slug == "" then "layr-app" else slug) + "-ed25519-v1"
  }

  function NewSigner(slug: string, customKeyIds: seq<string>, publicKey: seq<byte>, sign: string -> seq<byte>): (signer: Signer)
  {
    Signer(ResolvedKeyId(slug, customKeyIds), publicKey, sign)
  }

  function HeaderKeyId(signer: Signer): (keyId: string)
  {
    if signer.keyId == "" then FALLBACK_KEY_ID else signer.keyId
  }

  function Compact(codec: Codec, signer: Signer, claims: Claims): (token: string)
  {
    var input := Encode(codec.encodeHeader(HeaderKeyId(signer))) + "." + Encode(codec.encodeClaims(claims));
    input + "." + Encode(signer.sign(input))
  }

  method GenerateAccessToken(codec: Codec, signer: Signer, claims: Claims, handle: string, now: int,
                             expirySeconds: Option<int>, tokenId: string) returns (token: string)
    ensures token == Compact(codec, signer, IssuedClaims(claims, handle, now, expirySeconds, tokenId))
  {
    var filled := FillClaims(claims, handle, now, expirySeconds, tokenId);
    token := Compact(codec, signer, filled);
  }

  method FillClaims(claims: Claims, handle: string, now: int, expirySeconds: Option<int>, tokenId: string) returns (filled: Claims)
    ensures filled == IssuedClaims(claims, handle, now, expirySeconds, tokenId)
  {
    var role, issuer, audience, jwtId := claims.role, claims.issuer, claims.audience, claims.jwtId;
    var issuedAt, notBefore, expiresAt := claims.issuedAt, claims.notBefore, claims.expiresAt;
    if role == "" {
      role := "authenticated";
    }
    if issuer == "" {
      issuer := handle;
    }
    if audience == "" {
      audience := handle + ":user";
    }
    if issuedAt == 0 {
      issuedAt := now;
    }
    if notBefore == 0 {
      notBefore := now;
    }
    if expiresAt == 0 {
      var lifetime := DEFAULT_ACCESS_TOKEN_EXPIRY_SECONDS;
      if expirySeconds.Some? && expirySeconds.value > 0 {
        lifetime := expirySeconds.value;
      }
      expiresAt := now + lifetime;
    }
    if jwtId == "" {
      jwtId := tokenId;
    }
    filled := Claims(claims.subject, role, issuer, audience, issuedAt, notBefore, expiresAt, jwtId, claims.custom);
  }

  /* ---------- Verifying ---------- */

  /** Signature, claims and the two time bounds, in the order they are tested. */
  function VerifySegments(codec: Codec, publicKey: seq<byte>, segments: seq<string>, now: int): (r: Result<Claims>)
    requires |segments| == SEGMENTS
  {
    var input := segments[0] + "." + segments[1];
    var signature := Decode(segments[2]);
    if signature.None? then Err("invalid signature encoding")
    else if !codec.verify(publicKey, input, signature.value) then Err("jwt signature verification failed")
    else
      var json := Decode(segments[1]);
      if json.None? then Err("invalid claims base64")
      else
        match codec.decodeClaims(json.value)
        case None => Err("invalid claims json")
        case Some(claims) =>
          if claims.expiresAt < now then Err("jwt token expired")
          else if claims.notBefore > now then Err("jwt token not valid yet")
          else Ok(claims)
  }

  function VerifyAccessToken(codec: Codec, signer: Signer, token: string, now: int): (r: Result<Claims>)
  {
    var segments := Split(token, '.');
    if |segments| != SEGMENTS then Err("invalid token format: must contain 3 segments")
    else VerifySegments(codec, signer.publicKey, segments, now)
  }

  datatype Jwk = Jwk(keyId: string, x: string)

  function BuildJwks(signer: Signer): (keys: seq<Jwk>)
  {
    [Jwk(signer.keyId, Encode(signer.publicKey))]
  }

  /** The first key with the id; an unnamed header may use a sole key. */
  function MatchingKey(keys: seq<Jwk>, keyId: string): (key: Option<Jwk>)
  {
    var i := FirstWithId(keys, keyId);
    if i < |keys| then Some(keys[i])
    else if |keys| == 1 && keyId == "" then Some(keys[0])
    else None
  }

  function FirstWithId(keys: seq<Jwk>, keyId: string): (i: nat)
    ensures i <= |keys|
  {
    if keys == [] || keys[0].keyId == keyId then 0 else 1 + FirstWithId(keys[1..], keyId)
  }

  lemma {:induction false} FirstWithIdIs(keys: seq<Jwk>, keyId: string, i: nat)
    requires i <= |keys|
    requires forall j | 0 <= j < i :: keys[j].keyId != keyId
    requires i < |keys| ==> keys[i].keyId == keyId
    ensures FirstWithId(keys, keyId) == i
  {
    if i > 0 {
      FirstWithIdIs(keys[1..], keyId, i - 1);
    }
  }

  function VerifyJwt(codec: Codec, keys: seq<Jwk>, token: string, now: int): (r: Result<Claims>)
  {
    if keys == [] then Err("jwks contains no keys")
    else
      var segments := Split(token, '.');
      if |segments| != SEGMENTS then Err("invalid token format: must contain 3 segments")
      else
        var header := Decode(segments[0]);
        if header.None? then Err("invalid header base64")
        else
          match codec.decodeHeaderKeyId(header.value)
          case None => Err("invalid header json")
          case Some(keyId) =>
            var key := MatchingKey(keys, keyId);
            if key.None? then Err("no matching key found in jwks")
            else
              match Decode(key.value.x)
              case None => Err("failed to decode jwk public key")
              case Some(publicKey) => VerifySegments(codec, publicKey, segments, now)
  }

  /** The key lookup loop of the verifier. */
  method FindKey(keys: seq<Jwk>, keyId: string) returns (key: Option<Jwk>)
    ensures key == MatchingKey(keys, keyId)
  {
    for i := 0 to |keys|
      invariant forall j | 0 <= j < i :: keys[j].keyId != keyId
    {
      if keys[i].keyId == keyId {
        FirstWithIdIs(keys, keyId, i);
        return Some(keys[i]);
      }
    }
    FirstWithIdIs(keys, keyId, |keys|);
    return if |keys| == 1 && keyId == "" then Some(keys[0]) else None;
  }

  /* ---------- Round trip ---------- */

  lemma CompactSplits(codec: Codec, signer: Signer, claims: Claims)
    ensures var header, body := Encode(codec.encodeHeader(HeaderKeyId(signer))), Encode(codec.encodeClaims(claims));
      Split(Compact(codec, signer, claims), '.') == [header, body, Encode(signer.sign(header + "." + body))]
  {
    var header, body := Encode(codec.encodeHeader(HeaderKeyId(signer))), Encode(codec.encodeClaims(claims));
    var signature := Encode(signer.sign(header + "." + body));
    EncodeHasNoSeparator(codec.encodeHeader(HeaderKeyId(signer)));
    EncodeHasNoSeparator(codec.encodeClaims(claims));
    EncodeHasNoSeparator(signer.sign(header + "." + body));
    SplitOfThree(header, body, signature, '.');
  }

  lemma VerifyOfCompact(codec: Codec, signer: Signer, claims: Claims, now: int)
    requires IsCodec(codec, signer)
    ensures |Split(Compact(codec, signer, claims), '.')| == SEGMENTS
    ensures VerifyAccessToken(codec, signer, Compact(codec, signer, claims), now)
         == if claims.expiresAt < now then Err("jwt token expired")
            else if claims.notBefore > now then Err("jwt token not valid yet")
            else Ok(claims)
  {
    CompactSplits(codec, signer, claims);
    var header, body := Encode(codec.encodeHeader(HeaderKeyId(signer))), Encode(codec.encodeClaims(claims));
    DecodeOfEncode(codec.encodeClaims(claims));
    DecodeOfEncode(signer.sign(header + "." + body));
  }

  /** Issued at `t` for `lifetime` seconds, a token verifies to its claims exactly from `t` through `t + lifetime`. */
  lemma AccessTokenValidExactly(codec: Codec, signer: Signer, claims: Claims, handle: string, t: int, lifetime: int, tokenId: string, now: int)
    requires IsCodec(codec, signer)
    requires claims.issuedAt == 0 && claims.notBefore == 0 && claims.expiresAt == 0 && lifetime > 0
    ensures var issued := IssuedClaims(claims, handle, t, Some(lifetime), tokenId);
      && (VerifyAccessToken(codec, signer, Compact(codec, signer, issued), now) == Ok(issued) <==> t <= now <= t + lifetime)
      && (VerifyAccessToken(codec, signer, Compact(codec, signer, issued), now).Ok? <==> t <= now <= t + lifetime)
  {
    VerifyOfCompact(codec, signer, IssuedClaims(claims, handle, t, Some(lifetime), tokenId), now);
  }

  /** What a verified token says: each claim as given, or the signer's default for it where it was left out. */
  lemma TokenCarriesClaims(codec: Codec, signer: Signer, given: Claims, handle: string, t: int, expirySeconds: Option<int>,
                           tokenId: string, now: int, c: Claims)
    requires IsCodec(codec, signer)
    requires VerifyAccessToken(codec, signer, Compact(codec, signer, IssuedClaims(given, handle, t, expirySeconds, tokenId)), now) == Ok(c)
    ensures c.subject == given.subject && c.custom == given.custom
    ensures c.role == given.role || (given.role == "" && c.role == "authenticated")
    ensures c.issuer == given.issuer || (given.issuer == "" && c.issuer == handle)
    ensures c.audience == given.audience || (given.audience == "" && c.audience == handle + ":user")
    ensures c.jwtId == given.jwtId || (given.jwtId == "" && c.jwtId == tokenId)
    ensures c.issuedAt == given.issuedAt || (given.issuedAt == 0 && c.issuedAt == t)
    ensures c.notBefore == given.notBefore || (given.notBefore == 0 && c.notBefore == t)
    ensures c.expiresAt == given.expiresAt
      || (given.expiresAt == 0 && c.expiresAt == t + (if expirySeconds.Some? && expirySeconds.value > 0 then expirySeconds.value else 15 * 60))
    ensures c.role != "" && (tokenId != "" ==> c.jwtId != "") && (t != 0 ==> c.issuedAt != 0 && c.notBefore != 0)
    ensures (handle != "" ==> c.issuer != "" && c.audience != "") && (t >= 0 ==> c.expiresAt != 0)
  {
    VerifyOfCompact(codec, signer, IssuedClaims(given, handle, t, expirySeconds, tokenId), now);
  }

  /** The token is the three segments, signed by the key, and asserts the claims. */
  predicate IsSigned(codec: Codec, publicKey: seq<byte>, token: string, claims: Claims, header: string, body: string, signature: string)
  {
    && '.' !in header && '.' !in body && '.' !in signature && token == header + "." + body + "." + signature
    && Decode(signature).Some? && codec.verify(publicKey, header + "." + body, Decode(signature).value)
    && Decode(body).Some? && codec.decodeClaims(Decode(body).value) == Some(claims)
  }

  lemma SegmentsAre(token: string, segments: seq<string>)
    requires segments == Split(token, '.') && |segments| == SEGMENTS
    ensures '.' !in segments[0] && '.' !in segments[1] && '.' !in segments[2]
    ensures token == segments[0] + "." + segments[1] + "." + segments[2]
  {
    assert segments == [segments[0], segments[1], segments[2]];
    SplitsInThreeExactly(token, segments[0], segments[1], segments[2], '.');
  }

  lemma SegmentsVerify(codec: Codec, publicKey: seq<byte>, token: string, segments: seq<string>, now: int, claims: Claims)
    requires segments == Split(token, '.') && |segments| == SEGMENTS
    ensures VerifySegments(codec, publicKey, segments, now) == Ok(claims) <==>
      IsSigned(codec, publicKey, token, claims, segments[0], segments[1], segments[2]) && claims.notBefore <= now <= claims.expiresAt
  {
    SegmentsAre(token, segments);
  }

  /** Any text at all verifies to claims exactly when it is signed by the key and the claims are in force. */
  lemma VerifiesExactly(codec: Codec, signer: Signer, token: string, now: int, claims: Claims)
    ensures VerifyAccessToken(codec, signer, token, now) == Ok(claims) <==>
      && (exists header, body, signature :: IsSigned(codec, signer.publicKey, token, claims, header, body, signature))
      && claims.notBefore <= now <= claims.expiresAt
  {
    var segments := Split(token, '.');
    if header, body, signature :| IsSigned(codec, signer.publicKey, token, claims, header, body, signature) {
      SplitsInThreeExactly(token, header, body, signature, '.');
    }
    if |segments| == SEGMENTS {
      SegmentsVerify(codec, signer.publicKey, token, segments, now, claims);
    }
  }

  /** The key was chosen from the set by the header's key id, or is the only one for a header without. */
  predicate IsChosen(keys: seq<Jwk>, key: Jwk, keyId: string)
  {
    key in keys && (key.keyId == keyId || (keyId == "" && keys == [key]))
  }

  lemma {:induction false} FirstHasId(keys: seq<Jwk>, keyId: string)
    ensures var i := FirstWithId(keys, keyId); i < |keys| ==> keys[i].keyId == keyId
  {
    if keys != [] && keys[0].keyId != keyId {
      FirstHasId(keys[1..], keyId);
    }
  }

  lemma MatchingIsChosen(keys: seq<Jwk>, keyId: string)
    requires MatchingKey(keys, keyId).Some?
    ensures IsChosen(keys, MatchingKey(keys, keyId).value, keyId)
  {
    FirstHasId(keys, keyId);
  }

  /** The token is signed by a key of the set, chosen by the key id in its header. */
  predicate IsSignedBy(codec: Codec, keys: seq<Jwk>, key: Jwk, token: string, claims: Claims, header: string, body: string, signature: string)
  {
    && Decode(header).Some? && codec.decodeHeaderKeyId(Decode(header).value).Some?
    && IsChosen(keys, key, codec.decodeHeaderKeyId(Decode(header).value).value)
    && Decode(key.x).Some? && IsSigned(codec, Decode(key.x).value, token, claims, header, body, signature)
  }

  /** The key set accepts only what a key chosen from it has signed, while the claims are in force. */
  lemma KeySetVerifies(codec: Codec, keys: seq<Jwk>, token: string, now: int, claims: Claims)
    requires VerifyJwt(codec, keys, token, now) == Ok(claims)
    ensures claims.notBefore <= now <= claims.expiresAt
    ensures exists key, header, body, signature :: IsSignedBy(codec, keys, key, token, claims, header, body, signature)
  {
    var segments := Split(token, '.');
    var keyId := codec.decodeHeaderKeyId(Decode(segments[0]).value).value;
    var key := MatchingKey(keys, keyId).value;
    MatchingIsChosen(keys, keyId);
    SegmentsVerify(codec, Decode(key.x).value, token, segments, now, claims);
    assert IsSignedBy(codec, keys, key, token, claims, segments[0], segments[1], segments[2]);
  }

  lemma JwksVerifyOfCompact(codec: Codec, signer: Signer, claims: Claims, now: int)
    requires IsCodec(codec, signer)
    ensures var token := Compact(codec, signer, claims);
      if signer.keyId != "" then VerifyJwt(codec, BuildJwks(signer), token, now) == VerifyAccessToken(codec, signer, token, now)
      else VerifyJwt(codec, BuildJwks(signer), token, now) == Err("no matching key found in jwks")
  {
    CompactSplits(codec, signer, claims);
    DecodeOfEncode(codec.encodeHeader(HeaderKeyId(signer)));
    DecodeOfEncode(signer.publicKey);
    FirstWithIdIs(BuildJwks(signer), HeaderKeyId(signer), if signer.keyId == "" then 1 else 0);
  }

  /** For every signer the constructor makes, the published key set and the signer agree on every token it issues, at every instant. */
  lemma JwksAgrees(codec: Codec, slug: string, customKeyIds: seq<string>, publicKey: seq<byte>, sign: string -> seq<byte>, claims: Claims, now: int)
    requires IsCodec(codec, NewSigner(slug, customKeyIds, publicKey, sign))
    ensures var signer := NewSigner(slug, customKeyIds, publicKey, sign);
      var token := Compact(codec, signer, claims);
      VerifyJwt(codec, BuildJwks(signer), token, now) == VerifyAccessToken(codec, signer, token, now)
  {
    JwksVerifyOfCompact(codec, NewSigner(slug, customKeyIds, publicKey, sign), claims, now);
  }

  /** The non-empty key id is what agreement rests on: without one the token's header falls back to a name the key set lacks. */
  lemma JwksAgreesExactly(codec: Codec, signer: Signer, claims: Claims)
    requires IsCodec(codec, signer) && claims.notBefore <= claims.expiresAt
    ensures signer.keyId != ""
        <==> forall now ::
               VerifyJwt(codec, BuildJwks(signer), Compact(codec, signer, claims), now)
               == VerifyAccessToken(codec, signer, Compact(codec, signer, claims), now)
  {
    forall now
      ensures var token := Compact(codec, signer, claims);
        signer.keyId != "" ==> VerifyJwt(codec, BuildJwks(signer), token, now) == VerifyAccessToken(codec, signer, token, now)
    {
      JwksVerifyOfCompact(codec, signer, claims, now);
    }
    JwksVerifyOfCompact(codec, signer, claims, claims.expiresAt);
    VerifyOfCompact(codec, signer, claims, claims.expiresAt);
  }
}
