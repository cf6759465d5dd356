/** Loading key files and establishing a data key: RSA-OAEP wrapping, X25519 agreement (section 6.1
    of RFC 7748), and the hybrid of X25519 with ML-KEM-768 (FIPS 203), both through HKDF (RFC 5869). */
module KeyEstablishment {
  import opened Common
  import opened Primitives
  import opened Pem

  datatype KeyAlgorithm = Rsa | X25519 | X25519MlKem768

  /** The random bytes one encryption uses. */
  datatype Randomness = Randomness(dataKey: Bytes, coins: Bytes, ephemeralSeed: Bytes, nonce: Bytes)

  datatype Encapsulation = Encapsulation(dataKey: Bytes, keyMaterial: Bytes)

  datatype KeyPair = KeyPair(privateKeyPem: Bytes, publicKeyPem: Bytes)

  // "MUENC-X25519-HKDF-SHA256-v1"
  const X25519_SALT: Bytes :=
    [77, 85, 69, 78, 67, 45, 88, 50, 53, 53, 49, 57, 45, 72, 75, 68, 70, 45, 83, 72, 65, 50, 53, 54, 45, 118, 49]
  // "MUENC-X25519MLKEM768-HKDF-SHA256-v1"
  const HYBRID_SALT: Bytes :=
    [77, 85, 69, 78, 67, 45, 88, 50, 53, 53, 49, 57, 77, 76, 75, 69, 77, 55, 54, 56, 45, 72, 75, 68, 70, 45, 83,
    72, 65, 50, 53, 54, 45, 118, 49]
  const ML_KEM_CIPHERTEXT_SIZE: nat := 1088
  const ML_KEM_PUBLIC_KEY_SIZE: nat := 1184
  const X25519_PUBLIC_KEY_SIZE: nat := 32
  const SHARED_SECRET_SIZE: nat := 32
  const KEY_MATERIAL_SIZE: nat := ML_KEM_CIPHERTEXT_SIZE + X25519_PUBLIC_KEY_SIZE

  // ---- Key files ----

  function ParsePublicKey(suite: Suite, pem: Bytes): (r: Result<PublicKey>) {
    match suite.parsePublic(pem)
    case Some(key) => Ok(key)
    case None => Err(InvalidPublicKey)
  }

  function LoadPublicKey(suite: Suite, pem: Bytes, expected: KeyKind): (r: Result<PublicKey>) {
    if |PemBlocks(pem)| > 1 then Err(InvalidPublicKey)
    else
      var key :- ParsePublicKey(suite, pem);
      if key.kind != expected then Err(UnsupportedPublicKeyAlgorithm) else Ok(key)
  }

  function ParsePrivateKey(suite: Suite, pem: Bytes, passphrase: Option<Bytes>): (r: Result<PrivateKey>) {
    match suite.parsePrivate(pem, passphrase)
    case Some(key) => Ok(key)
    case None => Err(if passphrase.Some? then InvalidPassphrase else InvalidPrivateKey)
  }

  function LoadPrivateKey(suite: Suite, pem: Bytes, passphrase: Option<Bytes>, expected: KeyKind)
    : (r: Result<PrivateKey>)
  {
    var key :- ParsePrivateKey(suite, pem, passphrase);
    if key.kind != expected then Err(KeyAlgorithmMismatch) else Ok(key)
  }

  /** A hybrid private-key file holds exactly an ML-KEM-768 block and an X25519 block. */
  function LoadPrivateKeys(suite: Suite, pem: Bytes, passphrase: Option<Bytes>): (r: Result<(PrivateKey, PrivateKey)>) {
    var blocks := PemBlocks(pem);
    if blocks == [] then Err(InvalidPrivateKey)
    else
      var mlKem :- ParsePrivateKey(suite, blocks[0], passphrase);
      if |blocks| != 2 then Err(KeyAlgorithmMismatch)
      else if mlKem.kind != MlKem768Kind then Err(KeyAlgorithmMismatch)
      else
        var x25519 :- LoadPrivateKey(suite, blocks[1], passphrase, X25519Kind);
        Ok((mlKem, x25519))
  }

  // ---- Key derivation ----

  predicate AllZero(s: Bytes) {
    forall i :: 0 <= i < |s| ==> s[i] == 0
  }

  function DeriveSharedSecret(suite: Suite, own: PrivateKey, peer: PublicKey): (r: Result<Bytes>) {
    var shared := suite.sharedSecret(own, peer);
    if AllZero(shared) then Err(AuthenticationFailed) else Ok(shared)
  }

  function DeriveDataKey(suite: Suite, salt: Bytes, secret: Bytes, info: seq<Bytes>): (r: Bytes) {
    suite.hkdf(salt, secret, Flatten(info))
  }

  /** What the hybrid scheme feeds to HKDF: the input key and the concatenated context. */
  function HybridKdfInput(mlKemSecret: Bytes, x25519Secret: Bytes, keyMaterial: Bytes, mlKemPublic: Bytes,
                          x25519Public: Bytes)
    : (r: (Bytes, Bytes))
  {
    (mlKemSecret + x25519Secret, Flatten([keyMaterial, mlKemPublic, x25519Public]))
  }

  function DeriveHybridDataKey(suite: Suite, mlKemSecret: Bytes, x25519Secret: Bytes, keyMaterial: Bytes,
                               mlKem: PublicKey, x25519: PublicKey)
    : (r: Bytes)
  {
    var (inputKey, context) := HybridKdfInput(mlKemSecret, x25519Secret, keyMaterial, mlKem.raw, x25519.raw);
    suite.hkdf(HYBRID_SALT, inputKey, context)
  }

  // ---- The three schemes ----

  function GenerateKeyPair(suite: Suite, algorithm: KeyAlgorithm, seed: Bytes, x25519Seed: Bytes,
                           passphrase: Option<Bytes>)
    : (r: KeyPair)
  {
    match algorithm
    case Rsa =>
      var key := suite.generate(RsaKind, seed);
      KeyPair(suite.encodePrivate(key, passphrase), suite.encodePublic(suite.publicOf(key)))
    case X25519 =>
      var key := suite.generate(X25519Kind, x25519Seed);
      KeyPair(suite.encodePrivate(key, passphrase), suite.encodePublic(suite.publicOf(key)))
    case X25519MlKem768 =>
      var mlKem := suite.generate(MlKem768Kind, seed);
      var x25519 := suite.generate(X25519Kind, x25519Seed);
      KeyPair(suite.encodePrivate(mlKem, passphrase) + suite.encodePrivate(x25519, passphrase),
              suite.encodePublic(suite.publicOf(mlKem)) + suite.encodePublic(suite.publicOf(x25519)))
  }

  function Encapsulate(suite: Suite, algorithm: KeyAlgorithm, publicKeyPem: Bytes, random: Randomness)
    : (r: Result<Encapsulation>)
  {
    match algorithm
    case Rsa => RsaEncapsulate(suite, publicKeyPem, random)
    case X25519 => X25519Encapsulate(suite, publicKeyPem, random)
    case X25519MlKem768 => HybridEncapsulate(suite, publicKeyPem, random)
  }

  function Decapsulate(suite: Suite, algorithm: KeyAlgorithm, privateKeyPem: Bytes, passphrase: Option<Bytes>,
                       keyMaterial: Bytes)
    : (r: Result<Bytes>)
  {
    match algorithm
    case Rsa => RsaDecapsulate(suite, privateKeyPem, passphrase, keyMaterial)
    case X25519 => X25519Decapsulate(suite, privateKeyPem, passphrase, keyMaterial)
    case X25519MlKem768 => HybridDecapsulate(suite, privateKeyPem, passphrase, keyMaterial)
  }

  function RsaEncapsulate(suite: Suite, publicKeyPem: Bytes, random: Randomness): (r: Result<Encapsulation>) {
    var recipient :- LoadPublicKey(suite, publicKeyPem, RsaKind);
    Ok(Encapsulation(random.dataKey, suite.rsaWrap(recipient, random.dataKey, random.coins)))
  }

  function RsaDecapsulate(suite: Suite, privateKeyPem: Bytes, passphrase: Option<Bytes>, keyMaterial: Bytes)
    : (r: Result<Bytes>)
  {
    var key :- LoadPrivateKey(suite, privateKeyPem, passphrase, RsaKind);
    match suite.rsaUnwrap(key, keyMaterial)
    case None => Err(AuthenticationFailed)
    case Some(dataKey) => if |dataKey| != DATA_KEY_SIZE then Err(AuthenticationFailed) else Ok(dataKey)
  }

  function X25519Encapsulate(suite: Suite, publicKeyPem: Bytes, random: Randomness): (r: Result<Encapsulation>) {
    var recipient :- LoadPublicKey(suite, publicKeyPem, X25519Kind);
    var ephemeral := suite.generate(X25519Kind, random.ephemeralSeed);
    var keyMaterial := suite.publicOf(ephemeral).raw;
    var shared :- DeriveSharedSecret(suite, ephemeral, recipient);
    Ok(Encapsulation(DeriveDataKey(suite, X25519_SALT, shared, [keyMaterial, recipient.raw]), keyMaterial))
  }

  function RawX25519(raw: Bytes): (r: Result<PublicKey>) {
    if |raw| != X25519_PUBLIC_KEY_SIZE then Err(InvalidFormat(EphemeralKey)) else Ok(PublicKey(X25519Kind, raw))
  }

  function X25519Decapsulate(suite: Suite, privateKeyPem: Bytes, passphrase: Option<Bytes>, keyMaterial: Bytes)
    : (r: Result<Bytes>)
  {
    var recipient :- LoadPrivateKey(suite, privateKeyPem, passphrase, X25519Kind);
    var ephemeral :- RawX25519(keyMaterial);
    var shared :- DeriveSharedSecret(suite, recipient, ephemeral);
    Ok(DeriveDataKey(suite, X25519_SALT, shared, [keyMaterial, suite.publicOf(recipient).raw]))
  }

  function HybridEncapsulate(suite: Suite, publicKeyPem: Bytes, random: Randomness): (r: Result<Encapsulation>) {
    var blocks := PemBlocks(publicKeyPem);
    if |blocks| != 2 then Err(InvalidPublicKey)
    else
      var mlKem :- ParsePublicKey(suite, blocks[0]);
      var x25519 :- ParsePublicKey(suite, blocks[1]);
      if mlKem.kind != MlKem768Kind || x25519.kind != X25519Kind then Err(UnsupportedPublicKeyAlgorithm)
      else EncapsulateTo(suite, mlKem, x25519, random)
  }

  function EncapsulateTo(suite: Suite, mlKem: PublicKey, x25519: PublicKey, random: Randomness)
    : (r: Result<Encapsulation>)
  {
    var ciphertext := suite.kemCiphertext(mlKem, random.coins);
    var mlKemSecret := suite.kemSecret(mlKem, random.coins);
    var ephemeral := suite.generate(X25519Kind, random.ephemeralSeed);
    var x25519Secret :- DeriveSharedSecret(suite, ephemeral, x25519);
    var keyMaterial := ciphertext + suite.publicOf(ephemeral).raw;
    Ok(Encapsulation(DeriveHybridDataKey(suite, mlKemSecret, x25519Secret, keyMaterial, mlKem, x25519), keyMaterial))
  }

  function HybridDecapsulate(suite: Suite, privateKeyPem: Bytes, passphrase: Option<Bytes>, keyMaterial: Bytes)
    : (r: Result<Bytes>)
  {
    if |keyMaterial| != KEY_MATERIAL_SIZE then Err(InvalidFormat(KeyMaterialSize))
    else
      var ciphertext, ephemeralPublic := keyMaterial[..ML_KEM_CIPHERTEXT_SIZE], keyMaterial[ML_KEM_CIPHERTEXT_SIZE..];
      var (mlKem, x25519) :- LoadPrivateKeys(suite, privateKeyPem, passphrase);
      var ephemeral :- RawX25519(ephemeralPublic);
      var mlKemSecret := suite.kemRecover(mlKem, ciphertext);
      var x25519Secret :- DeriveSharedSecret(suite, x25519, ephemeral);
      Ok(DeriveHybridDataKey(suite, mlKemSecret, x25519Secret, keyMaterial, suite.publicOf(mlKem),
                             suite.publicOf(x25519)))
  }
}
