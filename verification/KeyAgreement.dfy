/** Both ends of an encryption arrive at the same data key. */
module KeyAgreement {
  import opened Common
  import opened Primitives
  import opened Pem
  import opened KeyEstablishment
  import opened Laws

  /** The random bytes drawn for an encryption have the lengths the code asks for. */
  predicate WellSized(random: Randomness) {
    |random.dataKey| == DATA_KEY_SIZE && |random.nonce| == NONCE_SIZE
  }

  // ---- Key files as the schemes see them ----

  /** The file of a hybrid key pair splits into its two halves, and each half parses. */
  lemma JoinedFileSplits(first: Bytes, second: Bytes)
    requires IsKeyFile(first) && IsKeyFile(second)
    ensures PemBlocks(first + second) == [BlockOf(first), NEWLINE + BlockOf(second)]
    ensures IsEncryptedPem(first) ==> IsEncryptedPem(first + second)
  {
    hide BlockEnd, PemBlocks, IsEncryptedPem;
    TwoBlockFileSplits(first, second);
    if IsEncryptedPem(first) {
      assert [] + first + second == first + second;
      EncryptedPemInExtension([], first, second);
    }
  }

  lemma SingleFileSplits(text: Bytes)
    requires IsKeyFile(text)
    ensures PemBlocks(text) == [BlockOf(text)]
  {
    hide BlockEnd, PemBlocks;
    OneBlockSplits(text);
  }

  lemma PublicFileLawAt(suite: Suite, kind: KeyKind, seed: Bytes)
    requires Lawful(suite) && Supported(kind)
    ensures PublicFileLaw(suite, suite.publicOf(suite.generate(kind, seed)))
  {
    hide PublicFileLaw, PrivateFileLaw, KeyLaws, SecretLaws, CipherLaws;
  }

  lemma PrivateFileLawAt(suite: Suite, kind: KeyKind, seed: Bytes, passphrase: Option<Bytes>, given: Option<Bytes>)
    requires Lawful(suite) && Supported(kind)
    ensures PrivateFileLaw(suite, suite.generate(kind, seed), passphrase, given)
  {
    hide PublicFileLaw, PrivateFileLaw, KeyLaws, SecretLaws, CipherLaws;
  }

  lemma KindOf(suite: Suite, kind: KeyKind, seed: Bytes)
    requires Lawful(suite)
    ensures suite.generate(kind, seed).kind == kind && suite.publicOf(suite.generate(kind, seed)).kind == kind
  {
    hide FileLaws, SecretLaws, CipherLaws;
  }

  /** The public file of a single-key pair loads as the key it was made from. */
  lemma SinglePublicLoads(suite: Suite, kind: KeyKind, seed: Bytes)
    requires Lawful(suite) && Supported(kind)
    ensures var key := suite.publicOf(suite.generate(kind, seed));
            LoadPublicKey(suite, suite.encodePublic(key), kind) == Ok(key)
  {
    hide BlockEnd, PemBlocks, Lawful;
    PublicFileLawAt(suite, kind, seed);
    KindOf(suite, kind, seed);
    SingleFileSplits(suite.encodePublic(suite.publicOf(suite.generate(kind, seed))));
  }

  lemma SinglePrivateLoads(suite: Suite, kind: KeyKind, seed: Bytes, passphrase: Option<Bytes>, given: Option<Bytes>)
    requires Lawful(suite) && Supported(kind) && (passphrase.None? || given == passphrase)
    ensures var key := suite.generate(kind, seed);
            LoadPrivateKey(suite, suite.encodePrivate(key, passphrase), given, kind) == Ok(key)
  {
    hide BlockEnd, PemBlocks, Lawful;
    PrivateFileLawAt(suite, kind, seed, passphrase, given);
    KindOf(suite, kind, seed);
  }

  lemma HybridPrivateLoads(suite: Suite, seed: Bytes, x25519Seed: Bytes, passphrase: Option<Bytes>,
                           given: Option<Bytes>)
    requires Lawful(suite) && (passphrase.None? || given == passphrase)
    ensures var keys := GenerateKeyPair(suite, X25519MlKem768, seed, x25519Seed, passphrase);
            LoadPrivateKeys(suite, keys.privateKeyPem, given)
              == Ok((suite.generate(MlKem768Kind, seed), suite.generate(X25519Kind, x25519Seed)))
  {
    hide BlockEnd, PemBlocks, Lawful;
    PrivateFileLawAt(suite, MlKem768Kind, seed, passphrase, given);
    PrivateFileLawAt(suite, X25519Kind, x25519Seed, passphrase, given);
    KindOf(suite, MlKem768Kind, seed);
    KindOf(suite, X25519Kind, x25519Seed);
    JoinedFileSplits(suite.encodePrivate(suite.generate(MlKem768Kind, seed), passphrase),
                     suite.encodePrivate(suite.generate(X25519Kind, x25519Seed), passphrase));
  }

  /** The mark of an encrypted key stands in the block itself, not across its end. */
  lemma MarkIsInBlock(text: Bytes)
    requires IsKeyFile(text) && IsEncryptedPem(text)
    ensures IsEncryptedPem(BlockOf(text)) && IsEncryptedPem(NEWLINE + BlockOf(text))
  {
    hide BlockEnd, Find;
    var block := BlockOf(text);
    var i := Find(text, ENCRYPTED).value;
    FindIsFirst(text, ENCRYPTED, i);
    LineFeedFollows(text);
    assert text[i..i + |ENCRYPTED|][8] == text[i + 8];
    assert text[i..i + |ENCRYPTED|] == block[i..i + |ENCRYPTED|];
    FindIsBounded(block, ENCRYPTED, i);
    assert NEWLINE + block + [] == NEWLINE + block;
    EncryptedPemInExtension(NEWLINE, block, []);
  }

  lemma LineFeedFollows(text: Bytes)
    requires IsKeyFile(text)
    ensures text == BlockOf(text) + NEWLINE
  {
    hide BlockEnd;
  }

  /** With a passphrase, every block of a generated private-key file is an encrypted one, and a hybrid
      file has two. */
  lemma EveryBlockIsEncrypted(suite: Suite, algorithm: KeyAlgorithm, seed: Bytes, x25519Seed: Bytes, passphrase: Bytes)
    requires Lawful(suite)
    ensures var blocks := PemBlocks(GenerateKeyPair(suite, algorithm, seed, x25519Seed,
                                                    Some(passphrase)).privateKeyPem);
            && |blocks| == (if algorithm == X25519MlKem768 then 2 else 1)
            && forall i :: 0 <= i < |blocks| ==> IsEncryptedPem(blocks[i])
  {
    hide Lawful, BlockEnd, PemBlocks, IsEncryptedPem, IsKeyFile;
    var given := Some(passphrase);
    PrivateFileLawAt(suite, RsaKind, seed, given, given);
    PrivateFileLawAt(suite, X25519Kind, x25519Seed, given, given);
    PrivateFileLawAt(suite, MlKem768Kind, seed, given, given);
    var rsa := suite.encodePrivate(suite.generate(RsaKind, seed), given);
    var x25519 := suite.encodePrivate(suite.generate(X25519Kind, x25519Seed), given);
    var mlKem := suite.encodePrivate(suite.generate(MlKem768Kind, seed), given);
    SingleFileSplits(rsa);
    SingleFileSplits(x25519);
    JoinedFileSplits(mlKem, x25519);
    MarkIsInBlock(rsa);
    MarkIsInBlock(x25519);
    MarkIsInBlock(mlKem);
  }

  // ---- Agreement ----

  lemma SecretLawsAt(suite: Suite, seed: Bytes, x25519Seed: Bytes, random: Randomness)
    requires Lawful(suite)
    ensures AgreementLaw(suite, random.ephemeralSeed, x25519Seed)
    ensures KemLaw(suite, seed, random.coins)
    ensures |random.dataKey| == DATA_KEY_SIZE ==> RsaLaw(suite, seed, random.dataKey, random.coins)
  {
    hide AgreementLaw, KemLaw, RsaLaw, KeyLaws, FileLaws, CipherLaws;
  }

  lemma RawSizes(suite: Suite, seed: Bytes)
    requires Lawful(suite)
    ensures |suite.publicOf(suite.generate(X25519Kind, seed)).raw| == X25519_PUBLIC_KEY_SIZE
    ensures |suite.publicOf(suite.generate(MlKem768Kind, seed)).raw| == ML_KEM_PUBLIC_KEY_SIZE
  {
    hide FileLaws, SecretLaws, CipherLaws;
  }

  lemma LawfulCipher(suite: Suite)
    requires Lawful(suite)
    ensures CipherLaws(suite)
  {
    hide KeyLaws, FileLaws, SecretLaws, CipherLaws;
  }

  lemma HkdfSize(suite: Suite, salt: Bytes, secret: Bytes, info: Bytes)
    requires Lawful(suite)
    ensures |suite.hkdf(salt, secret, info)| == DATA_KEY_SIZE
  {
    hide KeyLaws, FileLaws, SecretLaws;
  }

  /** The shared secret an encryption to this key would use. */
  function EphemeralSecret(suite: Suite, x25519Seed: Bytes, random: Randomness): (r: Bytes) {
    suite.sharedSecret(suite.generate(X25519Kind, random.ephemeralSeed),
                       suite.publicOf(suite.generate(X25519Kind, x25519Seed)))
  }

  /** The recipient recovers the data key from the key material, for one scheme and all of its inputs. */
  ghost predicate Agrees(suite: Suite, algorithm: KeyAlgorithm, keys: KeyPair, given: Option<Bytes>, random: Randomness)
  {
    var sent := Encapsulate(suite, algorithm, keys.publicKeyPem, random);
    && sent.Ok?
    && |sent.value.dataKey| == DATA_KEY_SIZE
    && Decapsulate(suite, algorithm, keys.privateKeyPem, given, sent.value.keyMaterial) == Ok(sent.value.dataKey)
  }

  lemma RsaAgrees(suite: Suite, seed: Bytes, x25519Seed: Bytes, passphrase: Option<Bytes>, given: Option<Bytes>,
                  random: Randomness)
    requires Lawful(suite) && WellSized(random) && (passphrase.None? || given == passphrase)
    ensures Agrees(suite, Rsa, GenerateKeyPair(suite, Rsa, seed, x25519Seed, passphrase), given, random)
    ensures var keys := GenerateKeyPair(suite, Rsa, seed, x25519Seed, passphrase);
            RsaEncapsulate(suite, keys.publicKeyPem, random).value.keyMaterial
              == suite.rsaWrap(suite.publicOf(suite.generate(RsaKind, seed)), random.dataKey, random.coins)
  {
    hide Lawful, LoadPublicKey, LoadPrivateKey;
    SinglePublicLoads(suite, RsaKind, seed);
    SinglePrivateLoads(suite, RsaKind, seed, passphrase, given);
    SecretLawsAt(suite, seed, x25519Seed, random);
  }

  lemma X25519Agrees(suite: Suite, seed: Bytes, x25519Seed: Bytes, passphrase: Option<Bytes>, given: Option<Bytes>,
                     random: Randomness)
    requires Lawful(suite) && (passphrase.None? || given == passphrase)
    ensures var keys := GenerateKeyPair(suite, X25519, seed, x25519Seed, passphrase);
            if AllZero(EphemeralSecret(suite, x25519Seed, random))
            then Encapsulate(suite, X25519, keys.publicKeyPem, random) == Err(AuthenticationFailed)
            else
              && Agrees(suite, X25519, keys, given, random)
              && |Encapsulate(suite, X25519, keys.publicKeyPem, random).value.keyMaterial| == X25519_PUBLIC_KEY_SIZE
  {
    hide Lawful, LoadPublicKey, LoadPrivateKey, AllZero;
    SinglePublicLoads(suite, X25519Kind, x25519Seed);
    SinglePrivateLoads(suite, X25519Kind, x25519Seed, passphrase, given);
    SecretLawsAt(suite, seed, x25519Seed, random);
    RawSizes(suite, random.ephemeralSeed);
    KindOf(suite, X25519Kind, random.ephemeralSeed);
    var keyMaterial := suite.publicOf(suite.generate(X25519Kind, random.ephemeralSeed)).raw;
    var recipient := suite.publicOf(suite.generate(X25519Kind, x25519Seed)).raw;
    HkdfSize(suite, X25519_SALT, EphemeralSecret(suite, x25519Seed, random), Flatten([keyMaterial, recipient]));
  }

  /** The X25519 data key is derived from the shared secret, bound to the ephemeral and the recipient's
      public key, and both ends feed HKDF the same. */
  lemma X25519InputsAgree(suite: Suite, seed: Bytes, x25519Seed: Bytes, passphrase: Option<Bytes>,
                          given: Option<Bytes>, random: Randomness)
    requires Lawful(suite) && !AllZero(EphemeralSecret(suite, x25519Seed, random))
    requires passphrase.None? || given == passphrase
    ensures var keys := GenerateKeyPair(suite, X25519, seed, x25519Seed, passphrase);
            var own, peer := suite.generate(X25519Kind, random.ephemeralSeed), suite.generate(X25519Kind, x25519Seed);
            var sent := X25519Encapsulate(suite, keys.publicKeyPem, random);
            var context := suite.publicOf(own).raw + suite.publicOf(peer).raw;
            && sent.Ok? && sent.value.keyMaterial == suite.publicOf(own).raw
            && sent.value.dataKey == suite.hkdf(X25519_SALT, suite.sharedSecret(own, suite.publicOf(peer)), context)
            && X25519Decapsulate(suite, keys.privateKeyPem, given, sent.value.keyMaterial)
                 == Ok(suite.hkdf(X25519_SALT, suite.sharedSecret(peer, suite.publicOf(own)), context))
  {
    hide Lawful, LoadPublicKey, LoadPrivateKey, AllZero, Flatten;
    SinglePublicLoads(suite, X25519Kind, x25519Seed);
    SinglePrivateLoads(suite, X25519Kind, x25519Seed, passphrase, given);
    SecretLawsAt(suite, seed, x25519Seed, random);
    RawSizes(suite, random.ephemeralSeed);
    KindOf(suite, X25519Kind, random.ephemeralSeed);
    FlattenTwo(suite.publicOf(suite.generate(X25519Kind, random.ephemeralSeed)).raw,
               suite.publicOf(suite.generate(X25519Kind, x25519Seed)).raw);
  }

  lemma SaltsSpelled()
    ensures X25519_SALT == Ascii("MUENC-X25519-HKDF-SHA256-v1")
    ensures HYBRID_SALT == Ascii("MUENC-X25519MLKEM768-HKDF-SHA256-v1")
  {
  }

  /** The public half of the hybrid scheme reduces to encapsulating to the two generated keys. */
  lemma HybridEncapsulates(suite: Suite, seed: Bytes, x25519Seed: Bytes, passphrase: Option<Bytes>, random: Randomness)
    requires Lawful(suite)
    ensures var keys := GenerateKeyPair(suite, X25519MlKem768, seed, x25519Seed, passphrase);
            && |PemBlocks(keys.publicKeyPem)| == 2
            && HybridEncapsulate(suite, keys.publicKeyPem, random)
                 == EncapsulateTo(suite, suite.publicOf(suite.generate(MlKem768Kind, seed)),
                                  suite.publicOf(suite.generate(X25519Kind, x25519Seed)), random)
  {
    hide Lawful, BlockEnd, PemBlocks, EncapsulateTo;
    PublicFileLawAt(suite, MlKem768Kind, seed);
    PublicFileLawAt(suite, X25519Kind, x25519Seed);
    KindOf(suite, MlKem768Kind, seed);
    KindOf(suite, X25519Kind, x25519Seed);
    JoinedFileSplits(suite.encodePublic(suite.publicOf(suite.generate(MlKem768Kind, seed))),
                     suite.encodePublic(suite.publicOf(suite.generate(X25519Kind, x25519Seed))));
  }

  /** What the recipient of hybrid key material feeds to HKDF. */
  function RecipientInput(suite: Suite, mlKem: PrivateKey, x25519: PrivateKey, keyMaterial: Bytes): (r: (Bytes, Bytes))
    requires |keyMaterial| == KEY_MATERIAL_SIZE
  {
    var ephemeral := PublicKey(X25519Kind, keyMaterial[ML_KEM_CIPHERTEXT_SIZE..]);
    HybridKdfInput(suite.kemRecover(mlKem, keyMaterial[..ML_KEM_CIPHERTEXT_SIZE]),
                   suite.sharedSecret(x25519, ephemeral), keyMaterial, suite.publicOf(mlKem).raw,
                   suite.publicOf(x25519).raw)
  }

  /** What the sender feeds to HKDF. */
  function SenderInput(suite: Suite, mlKem: PublicKey, x25519: PublicKey, random: Randomness, keyMaterial: Bytes)
    : (r: (Bytes, Bytes))
  {
    HybridKdfInput(suite.kemSecret(mlKem, random.coins),
                   suite.sharedSecret(suite.generate(X25519Kind, random.ephemeralSeed), x25519),
                   keyMaterial, mlKem.raw, x25519.raw)
  }

  /** The recipient splits the key material where the sender joined it, and both ends feed HKDF the
      same input key and context. */
  lemma HybridInputsAgree(suite: Suite, seed: Bytes, x25519Seed: Bytes, random: Randomness)
    requires Lawful(suite) && !AllZero(EphemeralSecret(suite, x25519Seed, random))
    ensures var mlKem, x25519 := suite.generate(MlKem768Kind, seed), suite.generate(X25519Kind, x25519Seed);
            var sent := EncapsulateTo(suite, suite.publicOf(mlKem), suite.publicOf(x25519), random);
            && sent.Ok? && |sent.value.keyMaterial| == 1120
            && sent.value.keyMaterial == suite.kemCiphertext(suite.publicOf(mlKem), random.coins)
                 + suite.publicOf(suite.generate(X25519Kind, random.ephemeralSeed)).raw
            && var input := SenderInput(suite, suite.publicOf(mlKem), suite.publicOf(x25519), random,
                                        sent.value.keyMaterial);
            && sent.value.dataKey == suite.hkdf(HYBRID_SALT, input.0, input.1)
            && input.0
              == suite.kemSecret(suite.publicOf(mlKem), random.coins) + EphemeralSecret(suite, x25519Seed, random)
            && input.1 == sent.value.keyMaterial + (suite.publicOf(mlKem).raw + suite.publicOf(x25519).raw)
            && RecipientInput(suite, mlKem, x25519, sent.value.keyMaterial) == input
            && suite.sharedSecret(x25519, PublicKey(X25519Kind, sent.value.keyMaterial[ML_KEM_CIPHERTEXT_SIZE..]))
                 == EphemeralSecret(suite, x25519Seed, random)
  {
    hide Lawful, AllZero, Flatten;
    SecretLawsAt(suite, seed, x25519Seed, random);
    RawSizes(suite, random.ephemeralSeed);
    KindOf(suite, X25519Kind, random.ephemeralSeed);
    var mlKem := suite.publicOf(suite.generate(MlKem768Kind, seed));
    var ephemeral := suite.publicOf(suite.generate(X25519Kind, random.ephemeralSeed)).raw;
    FlattenThree(suite.kemCiphertext(mlKem, random.coins) + ephemeral, mlKem.raw,
                 suite.publicOf(suite.generate(X25519Kind, x25519Seed)).raw);
    ConcatSlices(suite.kemCiphertext(mlKem, random.coins),
                 suite.publicOf(suite.generate(X25519Kind, random.ephemeralSeed)).raw);
  }

  lemma HybridAgrees(suite: Suite, seed: Bytes, x25519Seed: Bytes, passphrase: Option<Bytes>, given: Option<Bytes>,
                     random: Randomness)
    requires Lawful(suite) && (passphrase.None? || given == passphrase)
    ensures var keys := GenerateKeyPair(suite, X25519MlKem768, seed, x25519Seed, passphrase);
            if AllZero(EphemeralSecret(suite, x25519Seed, random))
            then Encapsulate(suite, X25519MlKem768, keys.publicKeyPem, random) == Err(AuthenticationFailed)
            else
              && Agrees(suite, X25519MlKem768, keys, given, random)
              && |Encapsulate(suite, X25519MlKem768, keys.publicKeyPem, random).value.keyMaterial| == KEY_MATERIAL_SIZE
  {
    hide Lawful, LoadPrivateKeys, HybridEncapsulate, GenerateKeyPair, AllZero, HybridKdfInput, PemBlocks;
    HybridEncapsulates(suite, seed, x25519Seed, passphrase, random);
    HybridPrivateLoads(suite, seed, x25519Seed, passphrase, given);
    if !AllZero(EphemeralSecret(suite, x25519Seed, random)) {
      HybridInputsAgree(suite, seed, x25519Seed, random);
      var mlKem := suite.publicOf(suite.generate(MlKem768Kind, seed));
      var x25519 := suite.publicOf(suite.generate(X25519Kind, x25519Seed));
      var input := SenderInput(suite, mlKem, x25519, random,
                               EncapsulateTo(suite, mlKem, x25519, random).value.keyMaterial);
      HkdfSize(suite, HYBRID_SALT, input.0, input.1);
    }
  }

  /** For every scheme: the encryption either rejects an all-zero shared secret, or produces key
      material that fits the header and leads the recipient to the same data key. */
  lemma SchemesAgree(suite: Suite, algorithm: KeyAlgorithm, seed: Bytes, x25519Seed: Bytes,
                     passphrase: Option<Bytes>, given: Option<Bytes>, random: Randomness)
    requires Lawful(suite) && WellSized(random) && (passphrase.None? || given == passphrase)
    ensures var keys := GenerateKeyPair(suite, algorithm, seed, x25519Seed, passphrase);
            var sent := Encapsulate(suite, algorithm, keys.publicKeyPem, random);
            if algorithm != Rsa && AllZero(EphemeralSecret(suite, x25519Seed, random))
            then sent == Err(AuthenticationFailed)
            else
              && Agrees(suite, algorithm, keys, given, random)
              && 1 <= |sent.value.keyMaterial| <= FileFormat.MAX_KEY_MATERIAL_SIZE
  {
    hide Lawful, AllZero, GenerateKeyPair, Agrees, RsaEncapsulate, X25519Encapsulate, HybridEncapsulate;
    match algorithm
    case Rsa =>
      RsaAgrees(suite, seed, x25519Seed, passphrase, given, random);
      SecretLawsAt(suite, seed, x25519Seed, random);
    case X25519 => X25519Agrees(suite, seed, x25519Seed, passphrase, given, random);
    case X25519MlKem768 => HybridAgrees(suite, seed, x25519Seed, passphrase, given, random);
  }

  // ---- The inputs of the key derivation ----

  lemma FlattenTwo(a: Bytes, b: Bytes)
    ensures Flatten([a, b]) == a + b
  {
    assert [a, b][1..] == [b] && [b][1..] == [];
    assert Flatten([b]) == b;
  }

  lemma FlattenThree(a: Bytes, b: Bytes, c: Bytes)
    ensures Flatten([a, b, c]) == a + (b + c)
  {
    assert [a, b, c][1..] == [b, c];
    FlattenTwo(b, c);
  }

  lemma ConcatInjective(a: Bytes, b: Bytes, a': Bytes, b': Bytes)
    requires |a| == |a'| && a + b == a' + b'
    ensures a == a' && b == b'
  {
    ConcatSlices(a, b);
    ConcatSlices(a', b');
  }

  /** Over the fixed sizes of the components, the hybrid derivation binds every one of them: two
      sets of components with the same HKDF inputs are the same. */
  lemma HybridKdfInputInjective(mlKemSecret: Bytes, x25519Secret: Bytes, keyMaterial: Bytes, mlKemPublic: Bytes,
                                x25519Public: Bytes, mlKemSecret': Bytes, x25519Secret': Bytes, keyMaterial': Bytes,
                                mlKemPublic': Bytes, x25519Public': Bytes)
    requires |mlKemSecret| == |mlKemSecret'| == SHARED_SECRET_SIZE
    requires |keyMaterial| == |keyMaterial'| == KEY_MATERIAL_SIZE
    requires |mlKemPublic| == |mlKemPublic'| == ML_KEM_PUBLIC_KEY_SIZE
    requires HybridKdfInput(mlKemSecret, x25519Secret, keyMaterial, mlKemPublic, x25519Public)
          == HybridKdfInput(mlKemSecret', x25519Secret', keyMaterial', mlKemPublic', x25519Public')
    ensures mlKemSecret == mlKemSecret' && x25519Secret == x25519Secret' && keyMaterial == keyMaterial'
    ensures mlKemPublic == mlKemPublic' && x25519Public == x25519Public'
  {
    hide Flatten;
    FlattenThree(keyMaterial, mlKemPublic, x25519Public);
    FlattenThree(keyMaterial', mlKemPublic', x25519Public');
    ConcatInjective(mlKemSecret, x25519Secret, mlKemSecret', x25519Secret');
    ConcatInjective(keyMaterial, mlKemPublic + x25519Public, keyMaterial', mlKemPublic' + x25519Public');
    ConcatInjective(mlKemPublic, x25519Public, mlKemPublic', x25519Public');
  }

  lemma X25519KdfInputInjective(keyMaterial: Bytes, recipient: Bytes, keyMaterial': Bytes, recipient': Bytes)
    requires |keyMaterial| == |keyMaterial'| == X25519_PUBLIC_KEY_SIZE
    requires Flatten([keyMaterial, recipient]) == Flatten([keyMaterial', recipient'])
    ensures keyMaterial == keyMaterial' && recipient == recipient'
  {
    hide Flatten;
    FlattenTwo(keyMaterial, recipient);
    FlattenTwo(keyMaterial', recipient');
    ConcatInjective(keyMaterial, recipient, keyMaterial', recipient');
  }

  // ---- What the loaders refuse ----

  /** Whatever the key file and the key material, a data key that comes out has the right size, and
      a hybrid key never comes out of material of another size than a ciphertext and a public key. */
  lemma DecapsulationChecksSizes(suite: Suite, algorithm: KeyAlgorithm, privateKeyPem: Bytes, passphrase: Option<Bytes>,
                                 keyMaterial: Bytes)
    requires CipherLaws(suite)
    ensures var key := Decapsulate(suite, algorithm, privateKeyPem, passphrase, keyMaterial);
            && (key.Ok? ==> |key.value| == DATA_KEY_SIZE)
            && (key.Ok? && algorithm == X25519 ==> |keyMaterial| == X25519_PUBLIC_KEY_SIZE)
            && (algorithm == X25519MlKem768 && |keyMaterial| != KEY_MATERIAL_SIZE ==>
                  key == Err(InvalidFormat(KeyMaterialSize)))
  {
    hide LoadPrivateKey, LoadPrivateKeys, DeriveSharedSecret;
    match algorithm
    case Rsa =>
    case X25519 =>
    case X25519MlKem768 =>
  }

  /** Text after a file of two blocks counts as at least one more block, unless it is blank. */
  lemma JoinedFileWithMore(first: Bytes, second: Bytes, more: Bytes)
    requires IsKeyFile(first) && IsKeyFile(second)
    ensures AllWhitespace(more) ==> PemBlocks(first + second + more) == PemBlocks(first + second)
    ensures !AllWhitespace(more) ==>
      |PemBlocks(first + second + more)| > 2 && PemBlocks(first + second + more)[0] == BlockOf(first)
  {
    hide BlockEnd, PemBlocks, Unclosed, AllWhitespace;
    JoinedFileSplits(first, second);
    NoBlocksMeansBlank(more);
    OneBlockSplits(first);
    OneBlockSplits(second);
    UnclosedOfConcatenation(first, second);
    WhitespaceConcat(BlankAfter(first), BlankAfter(second));
    SplitOfConcatenation(first + second, more);
  }

  /** A hybrid private-key file stays loadable under appended text if and only if that is blank. */
  lemma HybridPrivateFileWithMore(suite: Suite, seed: Bytes, x25519Seed: Bytes, passphrase: Option<Bytes>,
                                  given: Option<Bytes>, more: Bytes)
    requires Lawful(suite) && (passphrase.None? || given == passphrase)
    ensures var pem := GenerateKeyPair(suite, X25519MlKem768, seed, x25519Seed, passphrase).privateKeyPem;
            if AllWhitespace(more)
            then LoadPrivateKeys(suite, pem + more, given) == LoadPrivateKeys(suite, pem, given)
            else LoadPrivateKeys(suite, pem + more, given) == Err(KeyAlgorithmMismatch)
  {
    hide BlockEnd, PemBlocks, Lawful, AllWhitespace;
    PrivateFileLawAt(suite, MlKem768Kind, seed, passphrase, given);
    PrivateFileLawAt(suite, X25519Kind, x25519Seed, passphrase, given);
    JoinedFileWithMore(suite.encodePrivate(suite.generate(MlKem768Kind, seed), passphrase),
                       suite.encodePrivate(suite.generate(X25519Kind, x25519Seed), passphrase), more);
  }

  /** The same for a hybrid public-key file. */
  lemma HybridPublicFileWithMore(suite: Suite, seed: Bytes, x25519Seed: Bytes, random: Randomness, more: Bytes)
    requires Lawful(suite)
    ensures var pem := GenerateKeyPair(suite, X25519MlKem768, seed, x25519Seed, None).publicKeyPem;
            if AllWhitespace(more)
            then HybridEncapsulate(suite, pem + more, random) == HybridEncapsulate(suite, pem, random)
            else HybridEncapsulate(suite, pem + more, random) == Err(InvalidPublicKey)
  {
    hide BlockEnd, PemBlocks, Lawful, AllWhitespace, EncapsulateTo;
    PublicFileLawAt(suite, MlKem768Kind, seed);
    PublicFileLawAt(suite, X25519Kind, x25519Seed);
    JoinedFileWithMore(suite.encodePublic(suite.publicOf(suite.generate(MlKem768Kind, seed))),
                       suite.encodePublic(suite.publicOf(suite.generate(X25519Kind, x25519Seed))), more);
  }
}
