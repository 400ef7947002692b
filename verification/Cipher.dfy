/** The encryption envelope around switch data. */
module Cipher {
  import opened Bytes
  import opened Wrappers

  const NONCE_SIZE: nat := 12
  const TAG_SIZE: nat := 16

  /** An AEAD with the associated data fixed to none; `seal` and `open` take the nonce first. */
  datatype Aead = Aead(seal: (Bytes, Bytes) -> Bytes, open: (Bytes, Bytes) -> Option<Bytes>)

  /** What is assumed of AES-GCM: opening inverts sealing, and a sealed text is one tag longer
      (section 5.2 of RFC 5116). */
  ghost predicate Correct(a: Aead) {
    forall nonce: Bytes, text: Bytes | |nonce| == NONCE_SIZE ::
      |a.seal(nonce, text)| == |text| + TAG_SIZE && a.open(nonce, a.seal(nonce, text)) == Some(text)
  }

  /** SwitchDataCipherUtil: without a configured secret the data passes unchanged. */
  datatype CipherUtil = Disabled | Enabled(aead: Aead)

  /** Nonce, then ciphertext. */
  function Encrypt(c: CipherUtil, nonce: Bytes, payload: Bytes): Bytes
    requires |nonce| == NONCE_SIZE
  {
    match c
    case Disabled => payload
    case Enabled(aead) => nonce + aead.seal(nonce, payload)
  }

  function Decrypt(c: CipherUtil, data: Bytes): Option<Bytes> {
    match c
    case Disabled => Some(data)
    case Enabled(aead) =>
      if |data| < NONCE_SIZE then None else aead.open(data[..NONCE_SIZE], data[NONCE_SIZE..])
  }

  ghost predicate Sound(c: CipherUtil) {
    c.Enabled? ==> Correct(c.aead)
  }

  /** How much longer the envelope is than the text. */
  function Overhead(c: CipherUtil): nat {
    if c.Enabled? then NONCE_SIZE + TAG_SIZE else 0
  }

  /** Decryption inverts encryption, whatever the nonce; the envelope adds 28 bytes, or none when no
      secret is configured. */
  lemma DecryptInvertsEncrypt(c: CipherUtil, nonce: Bytes, payload: Bytes)
    requires Sound(c) && |nonce| == NONCE_SIZE
    ensures Decrypt(c, Encrypt(c, nonce, payload)) == Some(payload)
    ensures |Encrypt(c, nonce, payload)| == |payload| + Overhead(c) == |payload| + if c.Enabled? then 28 else 0
  {
    if c.Enabled? {
      var data := Encrypt(c, nonce, payload);
      assert data[..NONCE_SIZE] == nonce && data[NONCE_SIZE..] == c.aead.seal(nonce, payload);
    }
  }

  /** What else is assumed of AES-GCM where it matters: it opens nothing but what was sealed under the
      key. */
  ghost predicate Authentic(a: Aead) {
    forall nonce: Bytes, x: Bytes | |nonce| == NONCE_SIZE && a.open(nonce, x).Some? :: x == a.seal(nonce, a.open(nonce, x).value)
  }

  ghost predicate Genuine(c: CipherUtil) {
    Sound(c) && (c.Enabled? ==> Authentic(c.aead))
  }

  /** `data` is twelve bytes of nonce and then `text` sealed under it. */
  ghost predicate IsSealed(a: Aead, data: Bytes, text: Bytes) {
    exists nonce: Bytes :: |nonce| == 12 && data == nonce + a.seal(nonce, text)
  }

  /** Opening is exact: with a secret, data opens to a text if and only if it is that text sealed under
      some nonce; without one, if and only if it is the text. */
  lemma DecryptExactly(c: CipherUtil, data: Bytes, text: Bytes)
    requires Genuine(c)
    ensures c.Enabled? ==> (Decrypt(c, data) == Some(text) <==> IsSealed(c.aead, data, text))
    ensures c.Disabled? ==> (Decrypt(c, data) == Some(text) <==> data == text)
  {
    if c.Enabled? {
      if IsSealed(c.aead, data, text) {
        var nonce: Bytes :| |nonce| == 12 && data == nonce + c.aead.seal(nonce, text);
        assert data == Encrypt(c, nonce, text);
        DecryptInvertsEncrypt(c, nonce, text);
      }
      if Decrypt(c, data) == Some(text) {
        var nonce := data[..12];
        assert data == nonce + data[12..];
        assert data[12..] == c.aead.seal(nonce, text);
      }
    }
  }

  /** So with a secret everything else is refused: what was not sealed, and what was tampered with. */
  lemma RefusedExactly(c: CipherUtil, data: Bytes)
    requires Genuine(c) && c.Enabled?
    ensures Decrypt(c, data) == None <==> forall text :: !IsSealed(c.aead, data, text)
  {
    forall text { DecryptExactly(c, data, text); }
    hide IsSealed, Decrypt, Genuine;
    if Decrypt(c, data).Some? { assert IsSealed(c.aead, data, Decrypt(c, data).value); }
  }

  /** The assumptions can be met: a tag that repeats the last byte of the nonce. */
  function TagOf(nonce: Bytes): (r: Bytes)
    ensures |r| == TAG_SIZE
  {
    seq(TAG_SIZE, _ => if nonce == [] then 0 else nonce[|nonce| - 1])
  }

  function WithTag(nonce: Bytes, text: Bytes): Bytes {
    text + TagOf(nonce)
  }

  function WithoutTag(nonce: Bytes, x: Bytes): Option<Bytes> {
    if |x| >= TAG_SIZE && x[|x| - TAG_SIZE..] == TagOf(nonce) then Some(x[..|x| - TAG_SIZE]) else None
  }

  lemma GenuineExists()
    ensures Genuine(Enabled(Aead(WithTag, WithoutTag)))
  {
    forall nonce: Bytes, text: Bytes
      ensures |WithTag(nonce, text)| == |text| + TAG_SIZE && WithoutTag(nonce, WithTag(nonce, text)) == Some(text)
    {
      var x := WithTag(nonce, text);
      assert x[|x| - TAG_SIZE..] == TagOf(nonce) && x[..|x| - TAG_SIZE] == text;
    }
    forall nonce: Bytes, x: Bytes | WithoutTag(nonce, x).Some? ensures x == WithTag(nonce, WithoutTag(nonce, x).value) {
      assert x == x[..|x| - TAG_SIZE] + x[|x| - TAG_SIZE..];
    }
  }
}
