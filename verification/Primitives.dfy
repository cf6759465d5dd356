/** The operations OpenSSL supplies, as uninterpreted functions, and the stream transform built
    from a keystream. What is assumed of them is stated in module Laws. */
module Primitives {
  import opened Common

  const DATA_KEY_SIZE: nat := 32
  const NONCE_SIZE: nat := 12
  const TAG_SIZE: nat := 16

  datatype Cipher = Aes256Gcm | ChaCha20Poly1305

  datatype KeyKind = RsaKind | X25519Kind | MlKem768Kind | OtherKind

  datatype PublicKey = PublicKey(kind: KeyKind, raw: Bytes)

  datatype PrivateKey = PrivateKey(kind: KeyKind, secret: Bytes)

  /** One initialised cipher: algorithm, data key and nonce. */
  datatype CipherContext = CipherContext(cipher: Cipher, dataKey: Bytes, nonce: Bytes)

  datatype Suite = Suite(
    generate: (KeyKind, Bytes) -> PrivateKey,
    publicOf: PrivateKey -> PublicKey,
    encodePublic: PublicKey -> Bytes,
    parsePublic: Bytes -> Option<PublicKey>,
    encodePrivate: (PrivateKey, Option<Bytes>) -> Bytes,
    parsePrivate: (Bytes, Option<Bytes>) -> Option<PrivateKey>,
    sharedSecret: (PrivateKey, PublicKey) -> Bytes,
    kemCiphertext: (PublicKey, Bytes) -> Bytes,
    kemSecret: (PublicKey, Bytes) -> Bytes,
    kemRecover: (PrivateKey, Bytes) -> Bytes,
    rsaSize: PrivateKey -> nat,
    rsaWrap: (PublicKey, Bytes, Bytes) -> Bytes,
    rsaUnwrap: (PrivateKey, Bytes) -> Option<Bytes>,
    legacyWrap: (PublicKey, Bytes, Bytes) -> Bytes,
    legacyUnwrap: (PrivateKey, Bytes) -> Option<Bytes>,
    hkdf: (Bytes, Bytes, Bytes) -> Bytes,
    keystream: (CipherContext, nat) -> byte,
    tag: (CipherContext, Bytes, Bytes) -> Bytes,
    blockSize: Cipher -> nat)

  /** `data` combined with the keystream from position `start` on. Encryption and decryption are
      the same transform. */
  function Stream(suite: Suite, context: CipherContext, start: nat, data: Bytes): (r: Bytes)
    ensures |r| == |data|
  {
    seq(|data|, i requires 0 <= i < |data| => Xor(data[i], suite.keystream(context, start + i)))
  }

  /** Every byte is combined with the keystream byte at its own position, bit by bit. */
  lemma StreamIsKeystream(suite: Suite, context: CipherContext, start: nat, data: Bytes, i: nat, bit: nat)
    requires i < |data| && bit < 8
    ensures Bit(Stream(suite, context, start, data)[i], bit)
         == if Bit(data[i], bit) == Bit(suite.keystream(context, start + i), bit) then 0 else 1
  {
    XorIsBitwise(data[i], suite.keystream(context, start + i), bit);
  }

  lemma StreamTwice(suite: Suite, context: CipherContext, start: nat, data: Bytes)
    ensures Stream(suite, context, start, Stream(suite, context, start, data)) == data
  {
    forall i | 0 <= i < |data|
      ensures Stream(suite, context, start, Stream(suite, context, start, data))[i] == data[i]
    {
      XorUndoesItself(data[i], suite.keystream(context, start + i));
    }
  }

  /** What has been produced for a prefix never changes as more input arrives. */
  lemma StreamExtends(suite: Suite, context: CipherContext, start: nat, head: Bytes, tail: Bytes)
    ensures Stream(suite, context, start, head + tail)
         == Stream(suite, context, start, head) + Stream(suite, context, start + |head|, tail)
  {
  }
}
