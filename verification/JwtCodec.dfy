/** The laws asked of the token codec can be met: claims and key ids have an injective byte form. */
module JwtCodec {
  import opened Wrappers
  import opened Base64Url
  import Decimal
  import opened Jwt

  /** Each character as a mark and three bytes, and a zero at the end. */
  function Framed(s: string): (b: seq<byte>)
  {
    if s == "" then [0]
    else
      var n := s[0] as int;
      [1, n / 0x10000, n / 0x100 % 0x100, n % 0x100] + Framed(s[1..])
  }

  function Packed(parts: seq<string>): (b: seq<byte>)
  {
    if parts == [] then [] else Framed(parts[0]) + Packed(parts[1..])
  }

  function PartsOf(claims: Claims): (parts: seq<string>)
  {
    [claims.subject, claims.role, claims.issuer, claims.audience, Decimal.Format(claims.issuedAt),
     Decimal.Format(claims.notBefore), Decimal.Format(claims.expiresAt), claims.jwtId, claims.custom]
  }

  lemma BytesDetermineChar(a: char, b: char)
    requires a as int / 0x10000 == b as int / 0x10000 && a as int / 0x100 % 0x100 == b as int / 0x100 % 0x100
    requires a as int % 0x100 == b as int % 0x100
    ensures a == b
  {
  }

  /** The first frame of a text that is not empty, and what follows it. */
  lemma FrameOf(a: string, x: seq<byte>)
    requires a != ""
    ensures var n, s := a[0] as int, Framed(a) + x;
      |s| > 4 && s[0] == 1 && s[1] == n / 0x10000 && s[2] == n / 0x100 % 0x100 && s[3] == n % 0x100 && s[4..] == Framed(a[1..]) + x
  {
    var n := a[0] as int;
    var head: seq<byte> := [1, n / 0x10000, n / 0x100 % 0x100, n % 0x100];
    assert Framed(a) + x == head + (Framed(a[1..]) + x);
    assert |Framed(a[1..])| > 0;
  }

  lemma EmptyFrame(x: seq<byte>)
    ensures (Framed("") + x)[0] == 0 && (Framed("") + x)[1..] == x
  {
  }

  lemma {:induction false} FramesSeparate(a: string, b: string, x: seq<byte>, y: seq<byte>)
    requires Framed(a) + x == Framed(b) + y
    ensures a == b && x == y
  {
    if a == "" || b == "" {
      EmptyFrame(x);
      EmptyFrame(y);
      if a != "" {
        FrameOf(a, x);
      } else if b != "" {
        FrameOf(b, y);
      }
    } else {
      FrameOf(a, x);
      FrameOf(b, y);
      BytesDetermineChar(a[0], b[0]);
      FramesSeparate(a[1..], b[1..], x, y);
      assert a == [a[0]] + a[1..] && b == [b[0]] + b[1..];
    }
  }

  lemma {:induction false} PackedIsInjective(p: seq<string>, q: seq<string>)
    requires |p| == |q| && Packed(p) == Packed(q)
    ensures p == q
  {
    if p != [] {
      FramesSeparate(p[0], q[0], Packed(p[1..]), Packed(q[1..]));
      PackedIsInjective(p[1..], q[1..]);
      assert p == [p[0]] + p[1..] && q == [q[0]] + q[1..];
    }
  }

  lemma PartsAreInjective(a: Claims, b: Claims)
    requires PartsOf(a) == PartsOf(b)
    ensures a == b
  {
    var p, q := PartsOf(a), PartsOf(b);
    assert p[0] == q[0] && p[1] == q[1] && p[2] == q[2] && p[3] == q[3] && p[7] == q[7] && p[8] == q[8];
    assert p[4] == q[4] && p[5] == q[5] && p[6] == q[6];
    Decimal.ParseFormat(a.issuedAt);
    Decimal.ParseFormat(b.issuedAt);
    Decimal.ParseFormat(a.notBefore);
    Decimal.ParseFormat(b.notBefore);
    Decimal.ParseFormat(a.expiresAt);
    Decimal.ParseFormat(b.expiresAt);
  }

  ghost function ClaimsIn(b: seq<byte>): (r: Option<Claims>)
  {
    if claims :| Packed(PartsOf(claims)) == b then Some(claims) else None
  }

  ghost function KeyIdIn(b: seq<byte>): (r: Option<string>)
  {
    if keyId :| Framed(keyId) == b then Some(keyId) else None
  }

  lemma CodecExists()
    ensures exists codec, signer :: IsCodec(codec, signer)
  {
    var codec := Codec(claims => Packed(PartsOf(claims)), b => ClaimsIn(b), keyId => Framed(keyId), b => KeyIdIn(b), (key, input, signature) => true);
    var signer := Signer("k", [], input => []);
    forall claims
      ensures ClaimsIn(Packed(PartsOf(claims))) == Some(claims)
    {
      var found := ClaimsIn(Packed(PartsOf(claims))).value;
      PackedIsInjective(PartsOf(found), PartsOf(claims));
      PartsAreInjective(found, claims);
    }
    forall keyId
      ensures KeyIdIn(Framed(keyId)) == Some(keyId)
    {
      FramesSeparate(KeyIdIn(Framed(keyId)).value, keyId, [], []);
    }
    assert IsCodec(codec, signer);
  }
}
