/** The file format and the rules for accepting a file, written down a second time from the bytes up:
    with literal offsets, sizes, numbers and salts, and with the library's operations applied directly.
    What the code does is proved to be exactly this, for every input. */
module WireFormat {
  import opened Common
  import opened Primitives
  import opened Pem
  import opened KeyEstablishment
  import opened FileFormat
  import opened Registry
  import opened Session
  import opened KeyAgreement

  // ---- Writing ----

  datatype Recipient =
    | RsaRecipient(key: PublicKey)
    | X25519Recipient(key: PublicKey)
    | HybridRecipient(mlKem: PublicKey, x25519: PublicKey)

  /** Whom a public-key file is for. */
  function RecipientOf(suite: Suite, pem: Bytes): (r: Result<Recipient>) {
    var blocks := PemBlocks(pem);
    if |blocks| > 2 then Err(InvalidPublicKey)
    else if |blocks| == 2 then
      match (suite.parsePublic(blocks[0]), suite.parsePublic(blocks[1]))
      case (Some(first), Some(second)) =>
        if first.kind == MlKem768Kind && second.kind == X25519Kind then Ok(HybridRecipient(first, second))
        else Err(UnsupportedPublicKeyAlgorithm)
      case _ => Err(InvalidPublicKey)
    else
      match suite.parsePublic(pem)
      case Some(key) =>
        if key.kind == RsaKind then Ok(RsaRecipient(key))
        else if key.kind == X25519Kind then Ok(X25519Recipient(key))
        else Err(UnsupportedPublicKeyAlgorithm)
      case None => Err(InvalidPublicKey)
  }

  predicate IsZero(s: Bytes) {
    forall i :: 0 <= i < |s| ==> s[i] == 0
  }

  /** Data key and key material. */
  function Established(suite: Suite, recipient: Recipient, random: Randomness): (r: Result<(Bytes, Bytes)>) {
    var own := suite.generate(X25519Kind, random.ephemeralSeed);
    var ownPublic := suite.publicOf(own).raw;
    match recipient
    case RsaRecipient(key) => Ok((random.dataKey, suite.rsaWrap(key, random.dataKey, random.coins)))
    case X25519Recipient(key) =>
      var shared := suite.sharedSecret(own, key);
      if IsZero(shared) then Err(AuthenticationFailed)
      else Ok((suite.hkdf(Ascii("MUENC-X25519-HKDF-SHA256-v1"), shared, ownPublic + key.raw), ownPublic))
    case HybridRecipient(mlKem, x25519) =>
      var shared := suite.sharedSecret(own, x25519);
      var material := suite.kemCiphertext(mlKem, random.coins) + ownPublic;
      if IsZero(shared) then Err(AuthenticationFailed)
      else Ok((suite.hkdf(Ascii("MUENC-X25519MLKEM768-HKDF-SHA256-v1"), suite.kemSecret(mlKem, random.coins) + shared,
                          material + (mlKem.raw + x25519.raw)),
               material))
  }

  function SchemeByte(recipient: Recipient): (r: byte) {
    match recipient
    case RsaRecipient(_) => 1
    case X25519Recipient(_) => 2
    case HybridRecipient(_, _) => 3
  }

  function ChosenCipher(recipient: Recipient, choice: Option<Cipher>): (r: Cipher) {
    match choice
    case Some(cipher) => cipher
    case None => if recipient.RsaRecipient? then Aes256Gcm else ChaCha20Poly1305
  }

  /** Magic, version 1, scheme, cipher, the lengths of key material, nonce and tag, then key material and
      nonce. */
  function WrittenHeader(scheme: byte, cipher: Cipher, material: Bytes, nonce: Bytes): (r: Bytes) {
    var n := |material|;
    [0, 0, 0, 0, 77, 85, 69, 78, 67, 0, 0, 0, 1, 0, scheme, 0, if cipher == Aes256Gcm then 1 else 2]
    + [n / 0x100_0000 % 256, n / 0x1_0000 % 256, n / 256 % 256, n % 256, 0, 12, 0, 16]
    + material + nonce
  }

  function Sealed(suite: Suite, pem: Bytes, choice: Option<Cipher>, random: Randomness, plaintext: Bytes)
    : (r: Result<Bytes>)
  {
    var recipient :- RecipientOf(suite, pem);
    var (dataKey, material) :- Established(suite, recipient, random);
    var cipher := ChosenCipher(recipient, choice);
    var header := WrittenHeader(SchemeByte(recipient), cipher, material, random.nonce);
    var context := CipherContext(cipher, dataKey, random.nonce);
    var ciphertext := Stream(suite, context, 0, plaintext);
    Ok(header + (ciphertext + suite.tag(context, header, ciphertext)))
  }

  function SchemeOf(recipient: Recipient): (r: KeyAlgorithm) {
    match recipient
    case RsaRecipient(_) => Rsa
    case X25519Recipient(_) => X25519
    case HybridRecipient(_, _) => X25519MlKem768
  }

  function Packed(pair: Result<(Bytes, Bytes)>): (r: Result<Encapsulation>) {
    if pair.Err? then Err(pair.error) else Ok(Encapsulation(pair.value.0, pair.value.1))
  }

  /** Dispatch and the chosen scheme's own loader together find the recipient, or the error. */
  lemma EncapsulationMeans(suite: Suite, pem: Bytes, random: Randomness)
    ensures match RecipientOf(suite, pem)
            case Ok(recipient) =>
              && KeyEstablishmentForPublicKey(suite, pem) == Ok(SchemeOf(recipient))
              && Encapsulate(suite, SchemeOf(recipient), pem, random) == Packed(Established(suite, recipient, random))
            case Err(e) =>
              || KeyEstablishmentForPublicKey(suite, pem) == Err(e)
              || (&& KeyEstablishmentForPublicKey(suite, pem) == Ok(X25519MlKem768)
                  && Encapsulate(suite, X25519MlKem768, pem, random) == Err(e))
  {
    hide PemBlocks, Flatten, Ascii;
    SaltsSpelled();
    var own := suite.publicOf(suite.generate(X25519Kind, random.ephemeralSeed)).raw;
    match RecipientOf(suite, pem)
    case Ok(HybridRecipient(mlKem, x25519)) =>
      FlattenThree(suite.kemCiphertext(mlKem, random.coins) + own, mlKem.raw, x25519.raw);
    case Ok(X25519Recipient(key)) => FlattenTwo(own, key.raw);
    case Ok(RsaRecipient(_)) =>
    case Err(_) =>
  }

  lemma SmallField(x: byte)
    ensures U16ToBytes(x) == [0, x]
  {
  }

  lemma MetadataIsWritten(recipient: Recipient, cipher: Cipher, n: nat)
    ensures Metadata(Details(SchemeOf(recipient), cipher), n, 12, 16)
         == [0, SchemeByte(recipient), 0, if cipher == Aes256Gcm then 1 else 2]
            + [n / 0x100_0000 % 256, n / 0x1_0000 % 256, n / 256 % 256, n % 256, 0, 12, 0, 16]
  {
    hide U16ToBytes, U32ToBytes;
    U32Plain(n);
    SmallField(SchemeByte(recipient));
    SmallField(if cipher == Aes256Gcm then 1 else 2);
    SmallField(12);
    SmallField(16);
  }

  /** The printed header of a sealed file, byte by byte. */
  lemma HeaderIsWritten(recipient: Recipient, cipher: Cipher, material: Bytes, nonce: Bytes)
    requires |nonce| == 12
    ensures EncodeVersionedHeader(Details(SchemeOf(recipient), cipher), material, nonce, TAG_SIZE)
         == WrittenHeader(SchemeByte(recipient), cipher, material, nonce)
  {
    hide U16ToBytes, U32ToBytes, Metadata, Details, SchemeByte;
    MetadataIsWritten(recipient, cipher, |material|);
    SmallField(1);
    var n := |material|;
    var front: Bytes := [0, 0, 0, 0, 77, 85, 69, 78, 67, 0, 0, 0, 1];
    var ids: Bytes := [0, SchemeByte(recipient), 0, if cipher == Aes256Gcm then 1 else 2];
    assert Preamble(CURRENT_VERSION) == front;
    assert front + ids == [0, 0, 0, 0, 77, 85, 69, 78, 67, 0, 0, 0, 1, 0, SchemeByte(recipient), 0,
                           if cipher == Aes256Gcm then 1 else 2];
    var lengths: Bytes := [n / 0x100_0000 % 256, n / 0x1_0000 % 256, n / 256 % 256, n % 256, 0, 12, 0, 16];
    ConcatAssociative(front, ids, lengths);
  }

  /** Encryption writes exactly this file, for every public-key file, or gives exactly this error. */
  lemma SealFileWrites(suite: Suite, pem: Bytes, choice: Option<Cipher>, random: Randomness, plaintext: Bytes)
    requires |random.nonce| == 12
    ensures SealFile(suite, pem, choice, random, plaintext) == Sealed(suite, pem, choice, random, plaintext)
  {
    hide RecipientOf, Established, KeyEstablishmentForPublicKey, Encapsulate, EncodeVersionedHeader, WrittenHeader,
         Stream;
    EncapsulationMeans(suite, pem, random);
    if RecipientOf(suite, pem).Ok? {
      var recipient := RecipientOf(suite, pem).value;
      if Established(suite, recipient, random).Ok? {
        HeaderIsWritten(recipient, ChosenCipher(recipient, choice), Established(suite, recipient, random).value.1,
                        random.nonce);
      }
    }
  }

  // ---- Reading ----

  ghost predicate Marked(pem: Bytes) {
    exists i :: OccursAt(pem, Ascii("ENCRYPTED"), i)
  }

  /** The passphrase for a key file. */
  ghost function Entered(pem: Bytes, answer: Result<Bytes>): (r: Result<Option<Bytes>>) {
    if !Marked(pem) then Ok(None)
    else if answer.Err? then Err(answer.error)
    else Ok(Some(answer.value))
  }

  function PrivateKeyOf(suite: Suite, pem: Bytes, entered: Option<Bytes>, kind: KeyKind): (r: Result<PrivateKey>) {
    match suite.parsePrivate(pem, entered)
    case Some(key) => if key.kind == kind then Ok(key) else Err(KeyAlgorithmMismatch)
    case None => Err(if entered.Some? then InvalidPassphrase else InvalidPrivateKey)
  }

  /** The two keys of a hybrid file. A file that is not one is told apart by its first block. */
  function HybridKeysOf(suite: Suite, pem: Bytes, entered: Option<Bytes>): (r: Result<(PrivateKey, PrivateKey)>) {
    var blocks := PemBlocks(pem);
    if |blocks| == 0 then Err(InvalidPrivateKey)
    else if |blocks| != 2 && suite.parsePrivate(blocks[0], entered).Some? then Err(KeyAlgorithmMismatch)
    else
      var mlKem :- PrivateKeyOf(suite, blocks[0], entered, MlKem768Kind);
      var x25519 :- PrivateKeyOf(suite, blocks[1], entered, X25519Kind);
      Ok((mlKem, x25519))
  }

  /** The data key that key material stands for. */
  function Recovered(suite: Suite, scheme: nat, pem: Bytes, entered: Option<Bytes>, material: Bytes)
    : (r: Result<Bytes>)
  {
    if scheme == 1 then
      var key :- PrivateKeyOf(suite, pem, entered, RsaKind);
      match suite.rsaUnwrap(key, material)
      case Some(dataKey) => if |dataKey| == 32 then Ok(dataKey) else Err(AuthenticationFailed)
      case None => Err(AuthenticationFailed)
    else if scheme == 2 then
      var key :- PrivateKeyOf(suite, pem, entered, X25519Kind);
      if |material| != 32 then Err(InvalidFormat(EphemeralKey))
      else
        var shared := suite.sharedSecret(key, PublicKey(X25519Kind, material));
        if IsZero(shared) then Err(AuthenticationFailed)
        else Ok(suite.hkdf(Ascii("MUENC-X25519-HKDF-SHA256-v1"), shared, material + suite.publicOf(key).raw))
    else if |material| != 1120 then Err(InvalidFormat(KeyMaterialSize))
    else
      var (mlKem, x25519) :- HybridKeysOf(suite, pem, entered);
      var shared := suite.sharedSecret(x25519, PublicKey(X25519Kind, material[1088..]));
      if IsZero(shared) then Err(AuthenticationFailed)
      else Ok(suite.hkdf(Ascii("MUENC-X25519MLKEM768-HKDF-SHA256-v1"),
                         suite.kemRecover(mlKem, material[..1088]) + shared,
                         material + (suite.publicOf(mlKem).raw + suite.publicOf(x25519).raw)))
  }

  /** The last 16 bytes are the tag over header and ciphertext. */
  function OpenedBody(suite: Suite, context: CipherContext, header: Bytes, body: Bytes): (r: Result<Bytes>) {
    var n := |body| - 16;
    if n < 0 then Err(InvalidFormat(IncompleteTag))
    else if suite.tag(context, header, body[..n]) != body[n..] then Err(AuthenticationFailed)
    else Ok(Stream(suite, context, 0, body[..n]))
  }

  /** Version 0: wrapped key, 16-byte nonce and body follow the magic; the header is not authenticated. */
  function OpenedLegacy(suite: Suite, file: Bytes, pem: Bytes, entered: Option<Bytes>): (r: Result<Bytes>)
    requires |file| >= 13
  {
    var key :- PrivateKeyOf(suite, pem, entered, RsaKind);
    var n := 13 + suite.rsaSize(key);
    if |file| < n then Err(InvalidFormat(IncompleteKeyMaterial))
    else if |file| < n + 16 then Err(InvalidFormat(IncompleteNonce))
    else
      match suite.legacyUnwrap(key, file[13..n])
      case Some(dataKey) =>
        if |dataKey| == 32
          then OpenedBody(suite, CipherContext(Aes256Gcm, dataKey, file[n..n + 16]), [], file[n + 16..])
        else Err(AuthenticationFailed)
      case None => Err(AuthenticationFailed)
  }

  ghost function OpenedVersion1(suite: Suite, file: Bytes, pem: Bytes, answer: Result<Bytes>): (r: Result<Bytes>)
    requires |file| >= 25 && |file| >= 25 + At32(file, 17) + At16(file, 21)
  {
    var k, n, t := At32(file, 17), At16(file, 21), At16(file, 23);
    var scheme, cipher := At16(file, 13), At16(file, 15);
    if !(1 <= scheme <= 3) || !(1 <= cipher <= 2) then Err(UnsupportedAlgorithms(scheme, cipher))
    else
      var entered :- Entered(pem, answer);
      if n != 12 || t != 16 then Err(InvalidFormat(MethodSizes))
      else
        var dataKey :- Recovered(suite, scheme, pem, entered, file[25..25 + k]);
        var context := CipherContext(if cipher == 1 then Aes256Gcm else ChaCha20Poly1305, dataKey,
                                     file[25 + k..37 + k]);
        OpenedBody(suite, context, file[..37 + k], file[37 + k..])
  }

  ghost function Opened(suite: Suite, file: Bytes, pem: Bytes, answer: Result<Bytes>): (r: Result<Bytes>) {
    if |file| < 13 then Err(InvalidFormat(IncompletePreamble))
    else if file[..11] != [0, 0, 0, 0, 77, 85, 69, 78, 67, 0, 0] then Err(InvalidFormat(WrongMagic))
    else if At16(file, 11) == 0 then
      var entered :- Entered(pem, answer);
      OpenedLegacy(suite, file, pem, entered)
    else if At16(file, 11) != 1 then Err(InvalidFormat(UnsupportedVersion(At16(file, 11))))
    else if |file| < 25 then Err(InvalidFormat(IncompleteVersionedHeader))
    else if !(1 <= At32(file, 17) <= 16_777_216) then Err(InvalidFormat(KeyMaterialLength))
    else if !(1 <= At16(file, 21) <= 64) then Err(InvalidFormat(NonceLength))
    else if !(1 <= At16(file, 23) <= 64) then Err(InvalidFormat(TagLength))
    else if |file| < 25 + At32(file, 17) then Err(InvalidFormat(IncompleteKeyMaterial))
    else if |file| < 25 + At32(file, 17) + At16(file, 21) then Err(InvalidFormat(IncompleteNonce))
    else OpenedVersion1(suite, file, pem, answer)
  }

  lemma EnteredMeans(pem: Bytes, answer: Result<Bytes>)
    ensures RequestPassphrase(pem, answer) == Entered(pem, answer)
  {
    hide Ascii;
    Spelling();
    PromptsExactlyWhenMarked(pem, answer);
  }

  lemma HybridKeysMean(suite: Suite, pem: Bytes, entered: Option<Bytes>)
    ensures LoadPrivateKeys(suite, pem, entered) == HybridKeysOf(suite, pem, entered)
  {
    hide PemBlocks;
  }

  lemma DecapsulationMeans(suite: Suite, algorithm: KeyAlgorithm, pem: Bytes, entered: Option<Bytes>, material: Bytes)
    ensures Decapsulate(suite, algorithm, pem, entered, material)
         == Recovered(suite, match algorithm { case Rsa => 1 case X25519 => 2 case X25519MlKem768 => 3 }, pem, entered,
                      material)
  {
    hide LoadPrivateKeys, HybridKeysOf, Flatten, Ascii;
    SaltsSpelled();
    HybridKeysMean(suite, pem, entered);
    match algorithm
    case Rsa =>
    case X25519 =>
      if LoadPrivateKey(suite, pem, entered, X25519Kind).Ok? {
        FlattenTwo(material, suite.publicOf(LoadPrivateKey(suite, pem, entered, X25519Kind).value).raw);
      }
    case X25519MlKem768 =>
      if HybridKeysOf(suite, pem, entered).Ok? {
        var (mlKem, x25519) := HybridKeysOf(suite, pem, entered).value;
        FlattenThree(material, suite.publicOf(mlKem).raw, suite.publicOf(x25519).raw);
      }
  }

  lemma BodyMeans(suite: Suite, opening: Opening, body: Bytes)
    requires opening.tagSize == 16
    ensures OpenBody(suite, opening, body) == OpenedBody(suite, opening.context, opening.aad, body)
  {
    hide Stream;
  }

  lemma LegacyPlanMeans(suite: Suite, file: Bytes, pem: Bytes, entered: Option<Bytes>)
    requires |file| >= 13
    ensures var plan := PlanLegacyDecryption(suite, file[13..], pem, entered);
            match plan
            case Ok(opening) =>
              && opening.headerSize <= |file| && opening.tagSize == 16
              && OpenedLegacy(suite, file, pem, entered)
                   == OpenedBody(suite, opening.context, opening.aad, file[opening.headerSize..])
            case Err(e) => OpenedLegacy(suite, file, pem, entered) == Err(e)
  {
    hide OpenedBody;
    var key := PrivateKeyOf(suite, pem, entered, RsaKind);
    if key.Ok? {
      var n := suite.rsaSize(key.value);
      if |file| >= 29 + n {
        assert file[13..][..n] == file[13..13 + n] && file[13..][n..n + 16] == file[13 + n..29 + n];
      }
    }
  }

  lemma LegacyMeans(suite: Suite, file: Bytes, pem: Bytes, answer: Result<Bytes>)
    requires |file| >= 13 && ParseHeader(file) == Ok(Parsed(Legacy, 13))
    ensures OpenFile(suite, file, pem, answer) ==
      match Entered(pem, answer)
      case Ok(entered) => OpenedLegacy(suite, file, pem, entered)
      case Err(e) => Err(e)
  {
    hide ParseHeader, OpenBody, OpenedBody, IsEncryptedPem, Entered, PlanLegacyDecryption, OpenedLegacy;
    EnteredMeans(pem, answer);
    if Entered(pem, answer).Ok? {
      var entered := Entered(pem, answer).value;
      LegacyPlanMeans(suite, file, pem, entered);
      if PlanLegacyDecryption(suite, file[13..], pem, entered).Ok? {
        var opening := PlanLegacyDecryption(suite, file[13..], pem, entered).value;
        BodyMeans(suite, opening, file[opening.headerSize..]);
      }
    }
  }

  lemma Version1Means(suite: Suite, file: Bytes, pem: Bytes, answer: Result<Bytes>)
    requires |file| >= 25 && |file| >= 25 + At32(file, 17) + At16(file, 21)
    requires var k, n, t := At32(file, 17), At16(file, 21), At16(file, 23);
             ParseHeader(file) == Ok(Parsed(
               Version1(VersionedHeader(AlgorithmDetails(At16(file, 13), At16(file, 15)), file[25..25 + k],
                                        file[25 + k..25 + k + n], t, file[..25 + k + n])), 25 + k + n))
    ensures OpenFile(suite, file, pem, answer) == OpenedVersion1(suite, file, pem, answer)
  {
    hide ParseHeader, OpenBody, OpenedBody, IsEncryptedPem, Entered, Decapsulate, Recovered, MethodForDetails;
    EnteredMeans(pem, answer);
    var details := AlgorithmDetails(At16(file, 13), At16(file, 15));
    MethodsByNumber(details);
    if MethodForDetails(details).Ok? && Entered(pem, answer).Ok? {
      var k, chosen := At32(file, 17), MethodForDetails(details).value;
      DecapsulationMeans(suite, chosen.algorithm, pem, Entered(pem, answer).value, file[25..25 + k]);
      if PlanDecryption(suite, file, pem, answer).Ok? {
        var opening := PlanDecryption(suite, file, pem, answer).value;
        BodyMeans(suite, opening, file[opening.headerSize..]);
      }
    }
  }

  /** Decryption accepts exactly these files, with exactly these results and errors, whatever the file,
      the key and the answer to the prompt. */
  lemma OpenFileReads(suite: Suite, file: Bytes, pem: Bytes, answer: Result<Bytes>)
    ensures OpenFile(suite, file, pem, answer) == Opened(suite, file, pem, answer)
  {
    hide ParseHeader, PlanMethod, OpenBody, Entered, OpenedVersion1, OpenedLegacy;
    ParseDecides(file);
    if ParseHeader(file).Ok? {
      if ParseHeader(file).value.header.Legacy? {
        LegacyMeans(suite, file, pem, answer);
      } else {
        Version1Means(suite, file, pem, answer);
      }
    }
  }

  predicate OpensNothing(suite: Suite, pem: Bytes, entered: Bytes) {
    && suite.parsePrivate(pem, Some(entered)).None?
    && |PemBlocks(pem)| > 0 && suite.parsePrivate(PemBlocks(pem)[0], Some(entered)).None?
  }

  lemma NothingRecovered(suite: Suite, scheme: nat, pem: Bytes, entered: Bytes, material: Bytes)
    requires OpensNothing(suite, pem, entered)
    ensures Recovered(suite, scheme, pem, Some(entered), material)
         in {Err(InvalidPassphrase), Err(InvalidFormat(KeyMaterialSize))}
  {
    hide PemBlocks, Ascii;
  }

  /** A passphrase that opens neither the key file nor its first block is reported as such, unless the
      encrypted file is refused for its framing or its ids first. */
  lemma WrongPassphraseIsReported(suite: Suite, file: Bytes, pem: Bytes, entered: Bytes)
    requires Marked(pem) && OpensNothing(suite, pem, entered)
    ensures match OpenFile(suite, file, pem, Ok(entered))
            case Ok(_) => false
            case Err(InvalidFormat(_)) => true
            case Err(UnsupportedAlgorithms(_, _)) => true
            case Err(e) => e == InvalidPassphrase
  {
    hide PemBlocks, Marked, OpenedBody, OpenFile, Recovered;
    OpenFileReads(suite, file, pem, Ok(entered));
    if |file| >= 25 && |file| >= 25 + At32(file, 17) {
      NothingRecovered(suite, At16(file, 13), pem, entered, file[25..25 + At32(file, 17)]);
    }
  }
}
