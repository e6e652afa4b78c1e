/** The envelope that holds an encrypted field as text. */
module Envelope {
  import opened Wrappers
  import opened Text
  import opened Base64Url

  const NONCE_SIZE := 12
  const TAG_SIZE := 16
  const PREFIX := "enc" + ":" + "v1" + ":" + "aes256gcm" + ":"
  const COMPONENTS := 6

  /** AES-256-GCM under the derived subkey, kept abstract. */
  datatype Aead = Aead(
    seal: (seq<byte>, seq<byte>) -> seq<byte>,
    open: (seq<byte>, seq<byte>) -> Option<seq<byte>>)

  ghost predicate IsAead(aead: Aead)
  {
    forall nonce, plaintext | |nonce| == NONCE_SIZE ::
      && |aead.seal(nonce, plaintext)| == |plaintext| + TAG_SIZE
      && aead.open(nonce, aead.seal(nonce, plaintext)) == Some(plaintext)
  }

  /** `nonce` is missing when the random source fails. */
  function EncryptField(aead: Aead, plaintext: seq<byte>, nonce: Option<seq<byte>>): (r: Result<string>)
    requires IsAead(aead)
    requires nonce.Some? ==> |nonce.value| == NONCE_SIZE
  {
    if nonce.None? then Err("failed to generate random nonce")
    else
      var sealed := aead.seal(nonce.value, plaintext);
      var ciphertext, tag := sealed[..|sealed| - TAG_SIZE], sealed[|sealed| - TAG_SIZE..];
      Ok(PREFIX + (Encode(nonce.value) + ":" + Encode(ciphertext) + ":" + Encode(tag)))
  }

  function DecryptField(aead: Aead, encrypted: string): (r: Result<seq<byte>>)
  {
    if !(PREFIX <= encrypted) then Err("invalid envelope encryption prefix")
    else
      var parts := Split(encrypted, ':');
      if |parts| != COMPONENTS then Err("invalid envelope format, expected 6 components")
      else
        var nonce, ciphertext, tag := Decode(parts[3]), Decode(parts[4]), Decode(parts[5]);
        if nonce.None? then Err("invalid nonce base64")
        else if ciphertext.None? then Err("invalid ciphertext base64")
        else if tag.None? then Err("invalid tag base64")
        else if |nonce.value| != NONCE_SIZE then Err("invalid nonce size")
        else
          match aead.open(nonce.value, ciphertext.value + tag.value)
          case None => Err("failed to authenticate and decrypt ciphertext")
          case Some(plaintext) => Ok(plaintext)
  }

  /** An envelope splits into the scheme, its nonce, its ciphertext and its tag, and nothing more. */
  lemma EnvelopeHasSixParts(aead: Aead, plaintext: seq<byte>, nonce: seq<byte>)
    requires IsAead(aead) && |nonce| == NONCE_SIZE
    ensures var sealed := aead.seal(nonce, plaintext);
      Split(EncryptField(aead, plaintext, Some(nonce)).value, ':')
      == ["enc", "v1", "aes256gcm", Encode(nonce), Encode(sealed[..|plaintext|]), Encode(sealed[|plaintext|..])]
  {
    var sealed := aead.seal(nonce, plaintext);
    var a, b, c := Encode(nonce), Encode(sealed[..|plaintext|]), Encode(sealed[|plaintext|..]);
    EncodeHasNoSeparator(nonce);
    EncodeHasNoSeparator(sealed[..|plaintext|]);
    EncodeHasNoSeparator(sealed[|plaintext|..]);
    SixParts(a, b, c);
  }

  lemma SixParts(a: string, b: string, c: string)
    requires ':' !in a && ':' !in b && ':' !in c
    ensures Split(PREFIX + (a + ":" + b + ":" + c), ':') == ["enc", "v1", "aes256gcm", a, b, c]
  {
    SplitAfterScheme(a + ":" + b + ":" + c);
    SplitOfThree(a, b, c, ':');
  }

  lemma SplitAfterScheme(rest: string)
    ensures Split(PREFIX + rest, ':') == ["enc", "v1", "aes256gcm"] + Split(rest, ':')
  {
    SplitAfterThree("enc", "v1", "aes256gcm", ':', rest);
  }

  lemma DecryptOfParts(aead: Aead, encrypted: string, nonce: seq<byte>, ciphertext: seq<byte>, tag: seq<byte>)
    requires PREFIX <= encrypted && |nonce| == NONCE_SIZE
    requires Split(encrypted, ':') == ["enc", "v1", "aes256gcm", Encode(nonce), Encode(ciphertext), Encode(tag)]
    requires aead.open(nonce, ciphertext + tag).Some?
    ensures DecryptField(aead, encrypted) == Ok(aead.open(nonce, ciphertext + tag).value)
  {
    DecodeOfEncode(nonce);
    DecodeOfEncode(ciphertext);
    DecodeOfEncode(tag);
  }

  /** The text is an envelope of the three decoded parts. */
  predicate IsEnvelope(encrypted: string, a: string, b: string, c: string, nonce: seq<byte>, ciphertext: seq<byte>, tag: seq<byte>)
  {
    && ':' !in a && ':' !in b && ':' !in c && encrypted == PREFIX + (a + ":" + b + ":" + c)
    && Decode(a) == Some(nonce) && Decode(b) == Some(ciphertext) && Decode(c) == Some(tag)
  }

  lemma EnvelopeParts(encrypted: string, parts: seq<string>)
    requires PREFIX <= encrypted && parts == Split(encrypted, ':') && |parts| == COMPONENTS
    ensures ':' !in parts[3] && ':' !in parts[4] && ':' !in parts[5]
    ensures encrypted == PREFIX + (parts[3] + ":" + parts[4] + ":" + parts[5])
  {
    var rest := encrypted[|PREFIX|..];
    assert encrypted == PREFIX + rest;
    SplitAfterScheme(rest);
    assert Split(rest, ':') == parts[3..] == [parts[3], parts[4], parts[5]];
    SplitsInThreeExactly(rest, parts[3], parts[4], parts[5], ':');
  }

  /** Decryption gives a plaintext only for an envelope whose parts the cipher opens to it, under a nonce of the right size. */
  lemma DecryptedWasOpened(aead: Aead, encrypted: string, plaintext: seq<byte>)
    requires DecryptField(aead, encrypted) == Ok(plaintext)
    ensures exists a, b, c, nonce, ciphertext, tag ::
      && IsEnvelope(encrypted, a, b, c, nonce, ciphertext, tag)
      && |nonce| == NONCE_SIZE && aead.open(nonce, ciphertext + tag) == Some(plaintext)
  {
    var parts := Split(encrypted, ':');
    EnvelopeParts(encrypted, parts);
    assert IsEnvelope(encrypted, parts[3], parts[4], parts[5], Decode(parts[3]).value, Decode(parts[4]).value, Decode(parts[5]).value);
  }

  /** Decryption undoes encryption for every plaintext and every nonce of the right size. */
  lemma DecryptUndoesEncrypt(aead: Aead, plaintext: seq<byte>, nonce: seq<byte>)
    requires IsAead(aead) && |nonce| == NONCE_SIZE
    ensures EncryptField(aead, plaintext, Some(nonce)).Ok?
    ensures DecryptField(aead, EncryptField(aead, plaintext, Some(nonce)).value) == Ok(plaintext)
  {
    var sealed := aead.seal(nonce, plaintext);
    assert sealed[..|plaintext|] + sealed[|plaintext|..] == sealed;
    EnvelopeHasSixParts(aead, plaintext, nonce);
    DecryptOfParts(aead, EncryptField(aead, plaintext, Some(nonce)).value, nonce,
                   sealed[..|plaintext|], sealed[|plaintext|..]);
  }

  /** The laws asked of the cipher can be met. */
  lemma AeadExists()
    ensures exists aead :: IsAead(aead)
  {
    var zeros: seq<byte> := [0, 0, 0, 0, 0, 0, 0, 0, 0, 0, 0, 0, 0, 0, 0, 0];
    var aead := Aead((nonce, plaintext) => plaintext + zeros,
                     (nonce, sealed: seq<byte>) => if |sealed| < TAG_SIZE then None else Some(sealed[..|sealed| - TAG_SIZE]));
    forall nonce: seq<byte>, plaintext: seq<byte> | |nonce| == NONCE_SIZE
      ensures aead.open(nonce, aead.seal(nonce, plaintext)) == Some(plaintext)
    {
      assert (plaintext + zeros)[..|plaintext|] == plaintext;
    }
    assert IsAead(aead);
  }
}
