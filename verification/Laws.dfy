/** What is assumed of the cryptographic library: only lengths, and that inverse operations undo
    each other. Nothing is assumed or claimed about secrecy or forgery. */
module Laws {
  import opened Common
  import opened Primitives
  import opened Pem
  import opened KeyEstablishment
  import FileFormat

  const NEWLINE: Bytes := [10]

  predicate Supported(kind: KeyKind) {
    kind != OtherKind
  }

  /** An encoded key is one PEM block and a line feed. */
  predicate IsKeyFile(text: Bytes) {
    IsOneBlock(text) && BlankAfter(text) == NEWLINE
  }

  /** Parsing accepts the encoding as a file of its own, and as a block cut out of a longer file,
      when it may have lost its final line feed or taken over the one before it. */
  predicate PublicReads(suite: Suite, text: Bytes, key: PublicKey)
    requires IsKeyFile(text)
  {
    && suite.parsePublic(text) == Some(key)
    && suite.parsePublic(BlockOf(text)) == Some(key)
    && suite.parsePublic(NEWLINE + BlockOf(text)) == Some(key)
  }

  predicate PrivateReads(suite: Suite, text: Bytes, passphrase: Option<Bytes>, key: PrivateKey)
    requires IsKeyFile(text)
  {
    && suite.parsePrivate(text, passphrase) == Some(key)
    && suite.parsePrivate(BlockOf(text), passphrase) == Some(key)
    && suite.parsePrivate(NEWLINE + BlockOf(text), passphrase) == Some(key)
  }

  predicate PublicFileLaw(suite: Suite, key: PublicKey) {
    var text := suite.encodePublic(key);
    IsKeyFile(text) && PublicReads(suite, text, key)
  }

  /** An encrypted key is marked as such and opens with its passphrase. An unencrypted key opens
      with any passphrase, because none is looked at. */
  predicate PrivateFileLaw(suite: Suite, key: PrivateKey, passphrase: Option<Bytes>, given: Option<Bytes>) {
    var text := suite.encodePrivate(key, passphrase);
    && IsKeyFile(text)
    && (passphrase.Some? ==> IsEncryptedPem(text))
    && (passphrase.None? || given == passphrase ==> PrivateReads(suite, text, given, key))
  }

  ghost predicate KeyLaws(suite: Suite) {
    && (forall kind, seed :: suite.generate(kind, seed).kind == kind)
    && (forall key :: suite.publicOf(key).kind == key.kind)
    && (forall seed :: |suite.publicOf(suite.generate(X25519Kind, seed)).raw| == X25519_PUBLIC_KEY_SIZE)
    && (forall seed :: |suite.publicOf(suite.generate(MlKem768Kind, seed)).raw| == ML_KEM_PUBLIC_KEY_SIZE)
  }

  ghost predicate FileLaws(suite: Suite) {
    && (forall kind, seed :: Supported(kind) ==> PublicFileLaw(suite, suite.publicOf(suite.generate(kind, seed))))
    && (forall kind, seed, passphrase, given ::
          Supported(kind) ==> PrivateFileLaw(suite, suite.generate(kind, seed), passphrase, given))
  }

  /** Diffie-Hellman commutes. */
  predicate AgreementLaw(suite: Suite, a: Bytes, b: Bytes) {
    var ka, kb := suite.generate(X25519Kind, a), suite.generate(X25519Kind, b);
    && suite.sharedSecret(ka, suite.publicOf(kb)) == suite.sharedSecret(kb, suite.publicOf(ka))
    && |suite.sharedSecret(ka, suite.publicOf(kb))| == SHARED_SECRET_SIZE
  }

  /** Decapsulation recovers the encapsulated secret. */
  predicate KemLaw(suite: Suite, seed: Bytes, coins: Bytes) {
    var key := suite.generate(MlKem768Kind, seed);
    var ciphertext := suite.kemCiphertext(suite.publicOf(key), coins);
    && |ciphertext| == ML_KEM_CIPHERTEXT_SIZE
    && |suite.kemSecret(suite.publicOf(key), coins)| == SHARED_SECRET_SIZE
    && suite.kemRecover(key, ciphertext) == suite.kemSecret(suite.publicOf(key), coins)
  }

  /** Unwrapping recovers the wrapped key, and the wrapped key is as long as the modulus, which fits
      the header. */
  predicate RsaLaw(suite: Suite, seed: Bytes, message: Bytes, coins: Bytes) {
    var key := suite.generate(RsaKind, seed);
    var wrapped := suite.rsaWrap(suite.publicOf(key), message, coins);
    var legacy := suite.legacyWrap(suite.publicOf(key), message, coins);
    && |wrapped| == |legacy| == suite.rsaSize(key)
    && 1 <= suite.rsaSize(key) <= FileFormat.MAX_KEY_MATERIAL_SIZE
    && suite.rsaUnwrap(key, wrapped) == Some(message)
    && suite.legacyUnwrap(key, legacy) == Some(message)
  }

  ghost predicate SecretLaws(suite: Suite) {
    && (forall a, b :: AgreementLaw(suite, a, b))
    && (forall seed, coins :: KemLaw(suite, seed, coins))
    && (forall seed, message, coins :: |message| == DATA_KEY_SIZE ==> RsaLaw(suite, seed, message, coins))
  }

  ghost predicate CipherLaws(suite: Suite) {
    && (forall salt, secret, info :: |suite.hkdf(salt, secret, info)| == DATA_KEY_SIZE)
    && (forall context, aad, ciphertext :: |suite.tag(context, aad, ciphertext)| == TAG_SIZE)
    && (forall cipher :: suite.blockSize(cipher) >= 1)
  }

  ghost predicate Lawful(suite: Suite) {
    KeyLaws(suite) && FileLaws(suite) && SecretLaws(suite) && CipherLaws(suite)
  }
}
