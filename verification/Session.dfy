/** A whole encrypted file: how it is put together from a public key and a plaintext, and how it
    is taken apart. The streaming code is proved against these functions. */
module Session {
  import opened Common
  import opened Primitives
  import opened Pem
  import opened KeyEstablishment
  import opened FileFormat
  import opened Registry
  import opened Laws
  import opened KeyAgreement

  // ---- Encryption ----

  /** The header to write, which is also the authenticated data, and the cipher to start. */
  datatype Sealing = Sealing(header: Bytes, context: CipherContext)

  function PlanVersionedEncryption(suite: Suite, algorithm: KeyAlgorithm, cipher: Cipher, publicKeyPem: Bytes,
                                   random: Randomness)
    : (r: Result<Sealing>)
  {
    var sent :- Encapsulate(suite, algorithm, publicKeyPem, random);
    var header := EncodeVersionedHeader(Details(algorithm, cipher), sent.keyMaterial, random.nonce, TAG_SIZE);
    Ok(Sealing(header, CipherContext(cipher, sent.dataKey, random.nonce)))
  }

  function PlanEncryption(suite: Suite, publicKeyPem: Bytes, choice: Option<Cipher>, random: Randomness)
    : (r: Result<Sealing>)
  {
    var algorithm :- KeyEstablishmentForPublicKey(suite, publicKeyPem);
    var cipher := if choice.Some? then choice.value else DefaultCipher(algorithm);
    PlanVersionedEncryption(suite, algorithm, cipher, publicKeyPem, random)
  }

  /** Ciphertext and tag. */
  function SealBody(suite: Suite, context: CipherContext, aad: Bytes, plaintext: Bytes): (r: Bytes) {
    var ciphertext := Stream(suite, context, 0, plaintext);
    ciphertext + suite.tag(context, aad, ciphertext)
  }

  function SealFile(suite: Suite, publicKeyPem: Bytes, choice: Option<Cipher>, random: Randomness, plaintext: Bytes)
    : (r: Result<Bytes>)
  {
    var sealing :- PlanEncryption(suite, publicKeyPem, choice, random);
    Ok(sealing.header + SealBody(suite, sealing.context, sealing.header, plaintext))
  }

  // ---- Decryption ----

  datatype Opening = Opening(context: CipherContext, aad: Bytes, tagSize: nat, headerSize: nat)

  function PlanVersionedDecryption(suite: Suite, algorithm: KeyAlgorithm, cipher: Cipher, header: FileHeader,
                                   privateKeyPem: Bytes, passphrase: Option<Bytes>)
    : (r: Result<Opening>)
  {
    var h :- header.Versioned(NONCE_SIZE, TAG_SIZE);
    var dataKey :- Decapsulate(suite, algorithm, privateKeyPem, passphrase, h.keyMaterial);
    Ok(Opening(CipherContext(cipher, dataKey, h.nonce), h.authenticatedBytes, h.tagSize, |h.authenticatedBytes|))
  }

  /** The unversioned layout: `rest` is what follows the preamble. Nothing of the header is
      authenticated data. */
  function PlanLegacyDecryption(suite: Suite, rest: Bytes, privateKeyPem: Bytes, passphrase: Option<Bytes>)
    : (r: Result<Opening>)
    ensures r.Ok? ==> PREAMBLE_SIZE <= r.value.headerSize <= PREAMBLE_SIZE + |rest|
  {
    var key :- LoadPrivateKey(suite, privateKeyPem, passphrase, RsaKind);
    var size := suite.rsaSize(key);
    if |rest| < size then Err(InvalidFormat(IncompleteKeyMaterial))
    else if |rest| < size + LEGACY_NONCE_SIZE then Err(InvalidFormat(IncompleteNonce))
    else
      var nonce := rest[size..size + LEGACY_NONCE_SIZE];
      match suite.legacyUnwrap(key, rest[..size])
      case None => Err(AuthenticationFailed)
      case Some(dataKey) =>
        if |dataKey| != DATA_KEY_SIZE then Err(AuthenticationFailed)
        else Ok(Opening(CipherContext(Aes256Gcm, dataKey, nonce), [], LEGACY_TAG_SIZE,
                        PREAMBLE_SIZE + size + LEGACY_NONCE_SIZE))
  }

  function PlanMethod(suite: Suite, chosen: DecryptionMethod, header: FileHeader, rest: Bytes, privateKeyPem: Bytes,
                      passphrase: Option<Bytes>)
    : (r: Result<Opening>)
  {
    match chosen
    case LegacyMethod => PlanLegacyDecryption(suite, rest, privateKeyPem, passphrase)
    case VersionedMethod(algorithm, cipher) =>
      PlanVersionedDecryption(suite, algorithm, cipher, header, privateKeyPem, passphrase)
  }

  /** The passphrase is requested, and `answer` used, only when the key file is marked encrypted. */
  function RequestPassphrase(privateKeyPem: Bytes, answer: Result<Bytes>): (r: Result<Option<Bytes>>) {
    if !IsEncryptedPem(privateKeyPem) then Ok(None)
    else
      var passphrase :- answer;
      Ok(Some(passphrase))
  }

  /** The user is asked exactly when the letters of the mark occur somewhere in the key file, in its
      encoded text or anywhere else. */
  lemma PromptsExactlyWhenMarked(privateKeyPem: Bytes, answer: Result<Bytes>)
    ensures RequestPassphrase(privateKeyPem, answer)
         == if exists i :: OccursAt(privateKeyPem, ENCRYPTED, i)
            then (if answer.Ok? then Ok(Some(answer.value)) else Err(answer.error))
            else Ok(None)
  {
    FindIsFirst(privateKeyPem, ENCRYPTED, 0);
    if IsEncryptedPem(privateKeyPem) {
      FindIsFirst(privateKeyPem, ENCRYPTED, Find(privateKeyPem, ENCRYPTED).value);
    }
  }

  function PlanDecryption(suite: Suite, file: Bytes, privateKeyPem: Bytes, answer: Result<Bytes>)
    : (r: Result<Opening>)
  {
    var parsed :- ParseHeader(file);
    var chosen :- MethodForHeader(parsed.header);
    var passphrase :- RequestPassphrase(privateKeyPem, answer);
    PlanMethod(suite, chosen, parsed.header, file[parsed.size..], privateKeyPem, passphrase)
  }

  /** The body is ciphertext and tag. Nothing comes out unless the tag is right. */
  function OpenBody(suite: Suite, opening: Opening, body: Bytes): (r: Result<Bytes>) {
    if |body| < opening.tagSize then Err(InvalidFormat(IncompleteTag))
    else
      var split := |body| - opening.tagSize;
      if body[split..] != suite.tag(opening.context, opening.aad, body[..split]) then Err(AuthenticationFailed)
      else Ok(Stream(suite, opening.context, 0, body[..split]))
  }

  function OpenFile(suite: Suite, file: Bytes, privateKeyPem: Bytes, answer: Result<Bytes>): (r: Result<Bytes>) {
    var opening :- PlanDecryption(suite, file, privateKeyPem, answer);
    HeaderFits(suite, file, privateKeyPem, answer);
    OpenBody(suite, opening, file[opening.headerSize..])
  }

  lemma LegacyFits(suite: Suite, rest: Bytes, privateKeyPem: Bytes, passphrase: Option<Bytes>)
    requires PlanLegacyDecryption(suite, rest, privateKeyPem, passphrase).Ok?
    ensures var key := LoadPrivateKey(suite, privateKeyPem, passphrase, RsaKind);
            var opening := PlanLegacyDecryption(suite, rest, privateKeyPem, passphrase).value;
            && key.Ok? && opening.aad == []
            && opening.headerSize == PREAMBLE_SIZE + suite.rsaSize(key.value) + LEGACY_NONCE_SIZE
  {
    hide LoadPrivateKey;
  }

  /** The header size recorded for a file is where its body begins: after the printed header, which is
      the authenticated data, or after the unversioned fields, none of which is. */
  lemma HeaderFits(suite: Suite, file: Bytes, privateKeyPem: Bytes, answer: Result<Bytes>)
    requires PlanDecryption(suite, file, privateKeyPem, answer).Ok?
    ensures PlanDecryption(suite, file, privateKeyPem, answer).value.headerSize <= |file|
    ensures ParseHeader(file).Ok?
    ensures ParseHeader(file).value.header.Version1? ==>
      && PlanDecryption(suite, file, privateKeyPem, answer).value.headerSize == ParseHeader(file).value.size
      && PlanDecryption(suite, file, privateKeyPem, answer).value.aad == file[..ParseHeader(file).value.size]
    ensures ParseHeader(file).value.header.Legacy? ==>
      && PlanDecryption(suite, file, privateKeyPem, answer).value.aad == []
      && RequestPassphrase(privateKeyPem, answer).Ok?
      && var key := LoadPrivateKey(suite, privateKeyPem, RequestPassphrase(privateKeyPem, answer).value, RsaKind);
      && key.Ok?
      && PlanDecryption(suite, file, privateKeyPem, answer).value.headerSize
           == PREAMBLE_SIZE + suite.rsaSize(key.value) + LEGACY_NONCE_SIZE
  {
    hide ParseHeader, Decapsulate, LoadPrivateKey, IsEncryptedPem, PlanLegacyDecryption, FindScheme, FindCipher;
    var Parsed(header, size) := ParseHeader(file).value;
    if header.Version1? {
      EncodeOfParse(file);
    } else {
      LegacyPreambleSize(file);
      LegacyFits(suite, file[size..], privateKeyPem, RequestPassphrase(privateKeyPem, answer).value);
    }
  }

  lemma LegacyPreambleSize(file: Bytes)
    requires ParseHeader(file).Ok? && ParseHeader(file).value.header.Legacy?
    ensures ParseHeader(file).value.size == PREAMBLE_SIZE
  {
  }

  // ---- What decryption accepts ----

  lemma OpenUndoesSeal(suite: Suite, opening: Opening, plaintext: Bytes)
    requires CipherLaws(suite) && opening.tagSize == TAG_SIZE
    ensures OpenBody(suite, opening, SealBody(suite, opening.context, opening.aad, plaintext)) == Ok(plaintext)
  {
    hide Stream;
    var ciphertext := Stream(suite, opening.context, 0, plaintext);
    ConcatSlices(ciphertext, suite.tag(opening.context, opening.aad, ciphertext));
    StreamTwice(suite, opening.context, 0, plaintext);
  }

  /** A body is accepted only if it is what sealing the result would produce, so decrypting loses
      nothing and no two bodies decrypt to one plaintext. */
  lemma SealUndoesOpen(suite: Suite, opening: Opening, body: Bytes)
    requires OpenBody(suite, opening, body).Ok?
    ensures body == SealBody(suite, opening.context, opening.aad, OpenBody(suite, opening, body).value)
  {
    hide Stream;
    var split := |body| - opening.tagSize;
    StreamTwice(suite, opening.context, 0, body[..split]);
    assert body == body[..split] + body[split..];
  }

  lemma VersionedOpeningSizes(suite: Suite, file: Bytes, privateKeyPem: Bytes, answer: Result<Bytes>)
    requires PlanDecryption(suite, file, privateKeyPem, answer).Ok?
    requires ParseHeader(file).Ok? && ParseHeader(file).value.header.Version1?
    ensures var opening := PlanDecryption(suite, file, privateKeyPem, answer).value;
            |opening.context.nonce| == NONCE_SIZE && opening.tagSize == TAG_SIZE
  {
    hide ParseHeader, Decapsulate, IsEncryptedPem, PlanLegacyDecryption, FindScheme, FindCipher;
  }

  /** Whatever the file and the key, a decryption that is started has a data key of the cipher's size,
      and the nonce and tag of its layout. */
  lemma OpeningSizes(suite: Suite, file: Bytes, privateKeyPem: Bytes, answer: Result<Bytes>)
    requires CipherLaws(suite) && PlanDecryption(suite, file, privateKeyPem, answer).Ok?
    ensures var opening := PlanDecryption(suite, file, privateKeyPem, answer).value;
            && ParseHeader(file).Ok?
            && |opening.context.dataKey| == DATA_KEY_SIZE && opening.tagSize == TAG_SIZE
            && |opening.context.nonce|
                 == if ParseHeader(file).value.header.Legacy? then LEGACY_NONCE_SIZE else NONCE_SIZE
  {
    hide ParseHeader, Decapsulate, IsEncryptedPem, FindScheme, FindCipher, LoadPrivateKey, CipherLaws;
    var Parsed(header, size) := ParseHeader(file).value;
    if header.Version1? {
      var chosen := MethodForHeader(header).value;
      var given := RequestPassphrase(privateKeyPem, answer).value;
      DecapsulationChecksSizes(suite, chosen.algorithm, privateKeyPem, given, header.header.keyMaterial);
    }
  }

  /** Every byte of an accepted version-1 file is header, ciphertext or tag: the header is the
      authenticated data, nonce and tag have the full sizes, and the file is exactly what sealing the
      plaintext under that header produces. */
  lemma AcceptedFileIsCovered(suite: Suite, file: Bytes, privateKeyPem: Bytes, answer: Result<Bytes>)
    requires OpenFile(suite, file, privateKeyPem, answer).Ok?
    requires ParseHeader(file).Ok? && ParseHeader(file).value.header.Version1?
    ensures var opening := PlanDecryption(suite, file, privateKeyPem, answer).value;
            && IsVersionedHeader(opening.aad)
            && |opening.context.nonce| == NONCE_SIZE && opening.tagSize == TAG_SIZE
            && var plaintext := OpenFile(suite, file, privateKeyPem, answer).value;
            file == opening.aad + SealBody(suite, opening.context, opening.aad, plaintext)
  {
    hide ParseHeader, PlanDecryption, SealBody, OpenBody;
    var opening := PlanDecryption(suite, file, privateKeyPem, answer).value;
    HeaderFits(suite, file, privateKeyPem, answer);
    HeaderIsSelfDelimiting(file, []);
    VersionedOpeningSizes(suite, file, privateKeyPem, answer);
    SealUndoesOpen(suite, opening, file[opening.headerSize..]);
    assert file == file[..opening.headerSize] + file[opening.headerSize..];
  }

  /** The parts of a version-1 file: where the header ends and where the tag begins is fixed by the
      file alone, so different files have different parts. */
  lemma PartsAreUnique(aad: Bytes, ciphertext: Bytes, tag: Bytes, aad': Bytes, ciphertext': Bytes, tag': Bytes)
    requires IsVersionedHeader(aad) && IsVersionedHeader(aad') && |tag| == |tag'|
    ensures aad + (ciphertext + tag) == aad' + (ciphertext' + tag')
        <==> aad == aad' && ciphertext == ciphertext' && tag == tag'
  {
    hide IsVersionedHeader;
    if aad + (ciphertext + tag) == aad' + (ciphertext' + tag') {
      HeaderSplitIsUnique(aad, ciphertext + tag, aad', ciphertext' + tag');
      assert |ciphertext| == |ciphertext'|;
      ConcatInjective(ciphertext, tag, ciphertext', tag');
    }
  }

  // ---- Round trip ----

  /** The public file of a generated pair selects the scheme it was generated for. */
  lemma GeneratedFileIsDispatched(suite: Suite, algorithm: KeyAlgorithm, seed: Bytes, x25519Seed: Bytes,
                                  passphrase: Option<Bytes>, random: Randomness)
    requires Lawful(suite)
    ensures var keys := GenerateKeyPair(suite, algorithm, seed, x25519Seed, passphrase);
            KeyEstablishmentForPublicKey(suite, keys.publicKeyPem) == Ok(algorithm)
  {
    hide Lawful, PemBlocks, KeyEstablishmentForPublicKey, LoadPublicKey, IsHybridPublicFile, HybridEncapsulate,
         EncapsulateTo;
    var pem := GenerateKeyPair(suite, algorithm, seed, x25519Seed, passphrase).publicKeyPem;
    DispatchAgreesWithLoading(suite, pem, random);
    match algorithm
    case Rsa => SinglePublicLoads(suite, RsaKind, seed);
    case X25519 => SinglePublicLoads(suite, X25519Kind, x25519Seed);
    case X25519MlKem768 => HybridEncapsulates(suite, seed, x25519Seed, passphrase, random);
  }

  /** A generated single-key file whose line feed at the end is replaced by a carriage return and a line
      feed is dispatched as before, if the library reads both alike. */
  lemma CrLfKeepsScheme(suite: Suite, algorithm: KeyAlgorithm, seed: Bytes, x25519Seed: Bytes,
                        passphrase: Option<Bytes>, random: Randomness)
    requires Lawful(suite) && algorithm != X25519MlKem768
    ensures var pem := GenerateKeyPair(suite, algorithm, seed, x25519Seed, passphrase).publicKeyPem;
            && BlockEnd(pem).Some?
            && (suite.parsePublic(BlockOf(pem) + [13, 10]) == suite.parsePublic(pem) ==>
                  KeyEstablishmentForPublicKey(suite, BlockOf(pem) + [13, 10]) == Ok(algorithm))
  {
    hide Lawful, BlockEnd, PemBlocks;
    GeneratedFileIsDispatched(suite, algorithm, seed, x25519Seed, passphrase, random);
    PublicFileLawAt(suite, RsaKind, seed);
    PublicFileLawAt(suite, X25519Kind, x25519Seed);
    var pem := GenerateKeyPair(suite, algorithm, seed, x25519Seed, passphrase).publicKeyPem;
    SingleFileSplits(pem);
    BlockOfIsClosed(pem);
    TailIsDropped(BlockOf(pem), [13, 10]);
  }

  /** The passphrase that reaches the key loader for a generated private-key file, whichever of its
      blocks carries the mark. */
  lemma GeneratedFileAsksForPassphrase(suite: Suite, algorithm: KeyAlgorithm, seed: Bytes, x25519Seed: Bytes,
                                       passphrase: Option<Bytes>)
    requires Lawful(suite) && passphrase.Some?
    ensures IsEncryptedPem(GenerateKeyPair(suite, algorithm, seed, x25519Seed, passphrase).privateKeyPem)
  {
    hide Lawful, BlockEnd, PemBlocks, IsEncryptedPem;
    PrivateFileLawAt(suite, RsaKind, seed, passphrase, passphrase);
    PrivateFileLawAt(suite, X25519Kind, x25519Seed, passphrase, passphrase);
    PrivateFileLawAt(suite, MlKem768Kind, seed, passphrase, passphrase);
    if algorithm == X25519MlKem768 {
      JoinedFileSplits(suite.encodePrivate(suite.generate(MlKem768Kind, seed), passphrase),
                       suite.encodePrivate(suite.generate(X25519Kind, x25519Seed), passphrase));
    }
  }

  /** What the user answers when asked: the right passphrase if there is one, anything otherwise. */
  predicate Answers(answer: Result<Bytes>, passphrase: Option<Bytes>) {
    answer.Ok? && (passphrase.Some? ==> answer.value == passphrase.value)
  }

  lemma PassphraseReachesLoader(suite: Suite, algorithm: KeyAlgorithm, seed: Bytes, x25519Seed: Bytes,
                                passphrase: Option<Bytes>, answer: Result<Bytes>)
    requires Lawful(suite) && Answers(answer, passphrase)
    ensures var pem := GenerateKeyPair(suite, algorithm, seed, x25519Seed, passphrase).privateKeyPem;
            && RequestPassphrase(pem, answer).Ok?
            && (passphrase.None? || RequestPassphrase(pem, answer).value == passphrase)
  {
    hide Lawful, GenerateKeyPair, IsEncryptedPem;
    if passphrase.Some? {
      GeneratedFileAsksForPassphrase(suite, algorithm, seed, x25519Seed, passphrase);
    }
  }

  /** The header a sender writes leads the receiver to the same scheme, cipher and lengths. */
  lemma HeaderLeadsBack(algorithm: KeyAlgorithm, cipher: Cipher, keyMaterial: Bytes, nonce: Bytes, rest: Bytes)
    requires 1 <= |keyMaterial| <= MAX_KEY_MATERIAL_SIZE && |nonce| == NONCE_SIZE
    ensures var encoded := EncodeVersionedHeader(Details(algorithm, cipher), keyMaterial, nonce, TAG_SIZE);
            var header := VersionedHeader(Details(algorithm, cipher), keyMaterial, nonce, TAG_SIZE, encoded);
            && ParseHeader(encoded + rest) == Ok(Parsed(Version1(header), |encoded|))
            && MethodForHeader(Version1(header)) == Ok(VersionedMethod(algorithm, cipher))
            && Version1(header).Versioned(NONCE_SIZE, TAG_SIZE) == Ok(header)
  {
    hide ParseHeader, EncodeVersionedHeader, MethodForDetails;
    ParseOfEncode(Details(algorithm, cipher), keyMaterial, nonce, TAG_SIZE, rest);
    DetailsSelectTheirMethod(Details(algorithm, cipher), algorithm, cipher);
  }

  /** The cipher that is started is the one that was asked for, or the literal default of the scheme; and
      the header names it, along with the scheme, to every reader. */
  lemma RequestedCipherIsUsed(suite: Suite, pem: Bytes, choice: Option<Cipher>, random: Randomness, rest: Bytes)
    requires PlanEncryption(suite, pem, choice, random).Ok? && |random.nonce| == NONCE_SIZE
    ensures KeyEstablishmentForPublicKey(suite, pem).Ok?
    ensures var algorithm := KeyEstablishmentForPublicKey(suite, pem).value;
            var sealing := PlanEncryption(suite, pem, choice, random).value;
            var material := |Encapsulate(suite, algorithm, pem, random).value.keyMaterial|;
            && (choice.Some? ==> sealing.context.cipher == choice.value)
            && (choice.None? ==>
                sealing.context.cipher == match algorithm case Rsa => Aes256Gcm case _ => ChaCha20Poly1305)
            && (1 <= material <= MAX_KEY_MATERIAL_SIZE ==>
                  && ParseHeader(sealing.header + rest).Ok?
                  && MethodForHeader(ParseHeader(sealing.header + rest).value.header)
                       == Ok(VersionedMethod(algorithm, sealing.context.cipher)))
  {
    hide ParseHeader, EncodeVersionedHeader, MethodForHeader, KeyEstablishmentForPublicKey, Encapsulate;
    var algorithm := KeyEstablishmentForPublicKey(suite, pem).value;
    var keyMaterial := Encapsulate(suite, algorithm, pem, random).value.keyMaterial;
    if 1 <= |keyMaterial| <= MAX_KEY_MATERIAL_SIZE {
      HeaderLeadsBack(algorithm, PlanEncryption(suite, pem, choice, random).value.context.cipher, keyMaterial,
                      random.nonce, rest);
    }
  }

  /** Opening with the key material's own scheme gives back the sender's plan. */
  lemma PlansAgree(suite: Suite, algorithm: KeyAlgorithm, cipher: Cipher, keys: KeyPair, answer: Result<Bytes>,
                   random: Randomness, body: Bytes)
    requires WellSized(random) && RequestPassphrase(keys.privateKeyPem, answer).Ok?
    requires Agrees(suite, algorithm, keys, RequestPassphrase(keys.privateKeyPem, answer).value, random)
    requires 1 <= |Encapsulate(suite, algorithm, keys.publicKeyPem, random).value.keyMaterial| <= MAX_KEY_MATERIAL_SIZE
    ensures var sealing := PlanVersionedEncryption(suite, algorithm, cipher, keys.publicKeyPem, random);
            && sealing.Ok?
            && PlanDecryption(suite, sealing.value.header + body, keys.privateKeyPem, answer)
                 == Ok(Opening(sealing.value.context, sealing.value.header, TAG_SIZE, |sealing.value.header|))
  {
    hide ParseHeader, EncodeVersionedHeader, MethodForDetails, Encapsulate, Decapsulate, RequestPassphrase;
    var sent := Encapsulate(suite, algorithm, keys.publicKeyPem, random).value;
    HeaderLeadsBack(algorithm, cipher, sent.keyMaterial, random.nonce, body);
  }

  /** End to end: for every scheme, cipher choice, key pair, random bytes and plaintext, encryption
      either rejects an all-zero X25519 secret or yields a file that decrypts to the plaintext. */
  lemma RoundTrip(suite: Suite, algorithm: KeyAlgorithm, seed: Bytes, x25519Seed: Bytes, passphrase: Option<Bytes>,
                  answer: Result<Bytes>, choice: Option<Cipher>, random: Randomness, plaintext: Bytes)
    requires Lawful(suite) && WellSized(random) && Answers(answer, passphrase)
    ensures var keys := GenerateKeyPair(suite, algorithm, seed, x25519Seed, passphrase);
            var file := SealFile(suite, keys.publicKeyPem, choice, random, plaintext);
            if algorithm != Rsa && AllZero(EphemeralSecret(suite, x25519Seed, random))
            then file == Err(AuthenticationFailed)
            else file.Ok? && OpenFile(suite, file.value, keys.privateKeyPem, answer) == Ok(plaintext)
  {
    hide Lawful, GenerateKeyPair, AllZero, Encapsulate, Agrees, PlanDecryption, RequestPassphrase,
         KeyEstablishmentForPublicKey, EncodeVersionedHeader, OpenBody, SealBody;
    var keys := GenerateKeyPair(suite, algorithm, seed, x25519Seed, passphrase);
    GeneratedFileIsDispatched(suite, algorithm, seed, x25519Seed, passphrase, random);
    PassphraseReachesLoader(suite, algorithm, seed, x25519Seed, passphrase, answer);
    var given := RequestPassphrase(keys.privateKeyPem, answer).value;
    SchemesAgree(suite, algorithm, seed, x25519Seed, passphrase, given, random);
    if !(algorithm != Rsa && AllZero(EphemeralSecret(suite, x25519Seed, random))) {
      var cipher := if choice.Some? then choice.value else DefaultCipher(algorithm);
      AgreedIsSent(suite, algorithm, keys, given, random);
      PlansAgree(suite, algorithm, cipher, keys, answer, random, []);
      var sealing := PlanVersionedEncryption(suite, algorithm, cipher, keys.publicKeyPem, random).value;
      var body := SealBody(suite, sealing.context, sealing.header, plaintext);
      PlansAgree(suite, algorithm, cipher, keys, answer, random, body);
      ConcatSlices(sealing.header, body);
      LawfulCipher(suite);
      OpenUndoesSeal(suite, Opening(sealing.context, sealing.header, TAG_SIZE, |sealing.header|), plaintext);
    }
  }

  lemma AgreedIsSent(suite: Suite, algorithm: KeyAlgorithm, keys: KeyPair, given: Option<Bytes>, random: Randomness)
    requires Agrees(suite, algorithm, keys, given, random)
    ensures Encapsulate(suite, algorithm, keys.publicKeyPem, random).Ok?
  {
  }

  /** A generated key without a passphrase decrypts even when the user refuses to enter one, if and
      only if the letters of the mark do not occur in its file. */
  lemma UnencryptedKeyNeedsNoAnswer(suite: Suite, algorithm: KeyAlgorithm, seed: Bytes, x25519Seed: Bytes,
                                    choice: Option<Cipher>, random: Randomness, plaintext: Bytes, refusal: Error)
    requires Lawful(suite) && WellSized(random)
    requires var keys := GenerateKeyPair(suite, algorithm, seed, x25519Seed, None);
             SealFile(suite, keys.publicKeyPem, choice, random, plaintext).Ok?
    ensures var keys := GenerateKeyPair(suite, algorithm, seed, x25519Seed, None);
            var file := SealFile(suite, keys.publicKeyPem, choice, random, plaintext).value;
            OpenFile(suite, file, keys.privateKeyPem, Err(refusal))
              == if exists i :: OccursAt(keys.privateKeyPem, ENCRYPTED, i) then Err(refusal) else Ok(plaintext)
  {
    hide Lawful, GenerateKeyPair, SealFile, AllZero, ParseHeader, MethodForHeader, PlanMethod, OpenBody, IsEncryptedPem;
    var keys := GenerateKeyPair(suite, algorithm, seed, x25519Seed, None);
    RoundTrip(suite, algorithm, seed, x25519Seed, None, Ok([]), choice, random, plaintext);
    PromptsExactlyWhenMarked(keys.privateKeyPem, Ok([]));
    PromptsExactlyWhenMarked(keys.privateKeyPem, Err(refusal));
  }

  /** A file in the unversioned layout, as it was written before the versioned header existed. */
  function LegacyFile(suite: Suite, seed: Bytes, random: Randomness, plaintext: Bytes): (r: Bytes) {
    var recipient := suite.publicOf(suite.generate(RsaKind, seed));
    var context := CipherContext(Aes256Gcm, random.dataKey, random.nonce);
    Preamble(LEGACY_VERSION) + suite.legacyWrap(recipient, random.dataKey, random.coins) + random.nonce
    + SealBody(suite, context, [], plaintext)
  }

  lemma LegacyPlan(suite: Suite, seed: Bytes, passphrase: Option<Bytes>, given: Option<Bytes>, random: Randomness,
                   body: Bytes)
    requires Lawful(suite) && |random.dataKey| == DATA_KEY_SIZE && |random.nonce| == LEGACY_NONCE_SIZE
    requires passphrase.None? || given == passphrase
    ensures var key := suite.generate(RsaKind, seed);
            var wrapped := suite.legacyWrap(suite.publicOf(key), random.dataKey, random.coins);
            PlanLegacyDecryption(suite, wrapped + random.nonce + body, suite.encodePrivate(key, passphrase), given)
              == Ok(Opening(CipherContext(Aes256Gcm, random.dataKey, random.nonce), [], LEGACY_TAG_SIZE,
                            PREAMBLE_SIZE + |wrapped| + LEGACY_NONCE_SIZE))
  {
    hide Lawful, LoadPrivateKey;
    SinglePrivateLoads(suite, RsaKind, seed, passphrase, given);
    SecretLawsAt(suite, seed, seed, random);
    var wrapped := suite.legacyWrap(suite.publicOf(suite.generate(RsaKind, seed)), random.dataKey, random.coins);
    var rest := wrapped + random.nonce + body;
    assert rest[..|wrapped|] == wrapped;
    assert rest[|wrapped|..|wrapped| + LEGACY_NONCE_SIZE] == random.nonce;
  }

  lemma ParseLegacyPreamble(rest: Bytes)
    ensures ParseHeader(Preamble(LEGACY_VERSION) + rest) == Ok(Parsed(Legacy, PREAMBLE_SIZE))
    ensures (Preamble(LEGACY_VERSION) + rest)[PREAMBLE_SIZE..] == rest
  {
    var s := Preamble(LEGACY_VERSION) + rest;
    assert s[..|MAGIC_PREFIX|] == MAGIC_PREFIX;
    assert s[|MAGIC_PREFIX|..PREAMBLE_SIZE] == U16ToBytes(LEGACY_VERSION);
    U16RoundTrip(LEGACY_VERSION, U16ToBytes(LEGACY_VERSION));
  }

  /** Files in the old layout still decrypt. */
  lemma LegacyRoundTrip(suite: Suite, seed: Bytes, passphrase: Option<Bytes>, answer: Result<Bytes>, random: Randomness,
                        plaintext: Bytes)
    requires Lawful(suite) && |random.dataKey| == DATA_KEY_SIZE && |random.nonce| == LEGACY_NONCE_SIZE
    requires Answers(answer, passphrase)
    ensures var keys := GenerateKeyPair(suite, Rsa, seed, [], passphrase);
            OpenFile(suite, LegacyFile(suite, seed, random, plaintext), keys.privateKeyPem, answer) == Ok(plaintext)
  {
    hide Lawful, PlanLegacyDecryption, ParseHeader, RequestPassphrase, OpenBody, SealBody, Preamble;
    var keys := GenerateKeyPair(suite, Rsa, seed, [], passphrase);
    PassphraseReachesLoader(suite, Rsa, seed, [], passphrase, answer);
    var given := RequestPassphrase(keys.privateKeyPem, answer).value;
    var context := CipherContext(Aes256Gcm, random.dataKey, random.nonce);
    var body := SealBody(suite, context, [], plaintext);
    var wrapped := suite.legacyWrap(suite.publicOf(suite.generate(RsaKind, seed)), random.dataKey, random.coins);
    LegacyPlan(suite, seed, passphrase, given, random, body);
    var front := Preamble(LEGACY_VERSION) + wrapped + random.nonce;
    var file := LegacyFile(suite, seed, random, plaintext);
    assert file == Preamble(LEGACY_VERSION) + (wrapped + random.nonce + body);
    ParseLegacyPreamble(wrapped + random.nonce + body);
    ConcatSlices(front, body);
    LawfulCipher(suite);
    OpenUndoesSeal(suite, Opening(context, [], LEGACY_TAG_SIZE, |front|), plaintext);
  }
}
