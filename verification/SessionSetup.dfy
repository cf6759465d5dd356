/** Starting an encryption or a decryption: header, authenticated data, key and nonce are tied
    together in one cipher object on each side. */
module SessionSetup {
  import opened Common
  import opened Primitives
  import opened KeyEstablishment
  import opened KeyAgreement
  import opened FileFormat
  import opened Registry
  import opened Session
  import opened Io
  import opened HeaderReader
  import opened OpensslStream

  datatype EncryptionSession = EncryptionSession(header: Bytes, encryptor: StreamCipher, blockSize: nat, tagSize: nat)

  datatype DecryptionSession = DecryptionSession(decryptor: StreamCipher, blockSize: nat, tagSize: nat, headerSize: nat)

  const SEED_SIZE: nat := 32

  /** A cipher that has been given the authenticated data and nothing else. */
  ghost predicate Started(c: StreamCipher, suite: Suite, mode: Mode, context: CipherContext, aad: Bytes)
    reads c
  {
    && c.Valid() && c.suite == suite && c.mode == mode && c.context == context
    && c.aad == aad && c.consumed == [] && c.produced == 0
  }

  /** The random bytes of an encryption that begins at position `d` of the source: four fields, none of
      which shares a byte with another. */
  function RandomAt(source: RandomSource, d: nat): (r: Randomness)
    ensures WellSized(r)
  {
    Randomness(source.Slice(d, 32), source.Slice(d + 32, 32), source.Slice(d + 64, 32), source.Slice(d + 96, 12))
  }

  method PrepareEncryption(world: World, source: RandomSource, suite: Suite, publicKeyPem: Bytes,
                           choice: Option<Cipher>)
    returns (r: Result<EncryptionSession>, ghost random: Randomness)
    requires forall cipher :: suite.blockSize(cipher) >= 1
    modifies world`faults, source`drawn
    ensures random == RandomAt(source, old(source.drawn)) && source.drawn == old(source.drawn) + 108
    ensures r.Ok? ==>
      var plan := PlanEncryption(suite, publicKeyPem, choice, random);
      && world.faults == old(world.faults) && plan.Ok?
      && r.value.header == plan.value.header && r.value.tagSize == TAG_SIZE
      && fresh(r.value.encryptor)
      && Started(r.value.encryptor, suite, Encrypting, plan.value.context, plan.value.header)
      && r.value.blockSize == r.value.encryptor.BlockSize()
    ensures r.Err? ==>
      if world.faults == old(world.faults)
      then PlanEncryption(suite, publicKeyPem, choice, random) == Err(r.error)
      else r.error == Crypto && world.faults > old(world.faults)
  {
    hide Encapsulate, KeyEstablishmentForPublicKey, EncodeVersionedHeader;
    var dataKey := source.Draw(DATA_KEY_SIZE);
    var coins := source.Draw(SEED_SIZE);
    var ephemeralSeed := source.Draw(SEED_SIZE);
    var nonce := source.Draw(NONCE_SIZE);
    var drawn := Randomness(dataKey, coins, ephemeralSeed, nonce);
    random := drawn;
    var algorithm := KeyEstablishmentForPublicKey(suite, publicKeyPem);
    if algorithm.Err? {
      return Err(algorithm.error), random;
    }
    var failed := world.Fault();
    if failed {
      return Err(Crypto), random;
    }
    var cipher := if choice.Some? then choice.value else DefaultCipher(algorithm.value);
    var sent := Encapsulate(suite, algorithm.value, publicKeyPem, drawn);
    if sent.Err? {
      return Err(sent.error), random;
    }
    var header := EncodeVersionedHeader(Details(algorithm.value, cipher), sent.value.keyMaterial, nonce, TAG_SIZE);
    var encryptor := new StreamCipher(suite, Encrypting, CipherContext(cipher, sent.value.dataKey, nonce));
    var authenticated := encryptor.AuthenticateHeader(world, header);
    if authenticated.Err? {
      return Err(authenticated.error), random;
    }
    r := Ok(EncryptionSession(header, encryptor, encryptor.BlockSize(), TAG_SIZE));
  }

  /** `rest` is the input after the header. */
  method PrepareDecryption(world: World, suite: Suite, chosen: DecryptionMethod, input: Input, header: FileHeader,
                           privateKeyPem: Bytes, passphrase: Option<Bytes>)
    returns (r: Result<DecryptionSession>)
    requires input.Valid() && forall cipher :: suite.blockSize(cipher) >= 1
    modifies input`pos, world`faults, world`interruptions
    ensures input.Valid()
    ensures r.Ok? ==>
      var plan := PlanMethod(suite, chosen, header, input.data[old(input.pos)..], privateKeyPem, passphrase);
      && world.faults == old(world.faults) && plan.Ok?
      && r.value.tagSize == plan.value.tagSize && r.value.headerSize == plan.value.headerSize
      && fresh(r.value.decryptor)
      && Started(r.value.decryptor, suite, Decrypting, plan.value.context, plan.value.aad)
      && r.value.blockSize == r.value.decryptor.BlockSize()
      && input.pos == old(input.pos) + if chosen.LegacyMethod? then plan.value.headerSize - PREAMBLE_SIZE else 0
    ensures r.Err? ==>
      if world.faults == old(world.faults)
      then PlanMethod(suite, chosen, header, input.data[old(input.pos)..], privateKeyPem, passphrase) == Err(r.error)
      else r.error in {Error.Io, Crypto} && world.faults > old(world.faults)
  {
    hide PlanLegacyDecryption, PlanVersionedDecryption;
    match chosen
    case LegacyMethod => r := PrepareLegacyDecryption(world, suite, input, privateKeyPem, passphrase);
    case VersionedMethod(algorithm, cipher) =>
      r := PrepareVersionedDecryption(world, suite, algorithm, cipher, header, privateKeyPem, passphrase);
  }

  method PrepareVersionedDecryption(world: World, suite: Suite, algorithm: KeyAlgorithm, cipher: Cipher,
                                    header: FileHeader, privateKeyPem: Bytes, passphrase: Option<Bytes>)
    returns (r: Result<DecryptionSession>)
    requires forall cipher :: suite.blockSize(cipher) >= 1
    modifies world`faults
    ensures r.Ok? ==>
      var plan := PlanVersionedDecryption(suite, algorithm, cipher, header, privateKeyPem, passphrase);
      && world.faults == old(world.faults) && plan.Ok?
      && r.value.tagSize == plan.value.tagSize && r.value.headerSize == plan.value.headerSize
      && fresh(r.value.decryptor)
      && Started(r.value.decryptor, suite, Decrypting, plan.value.context, plan.value.aad)
      && r.value.blockSize == r.value.decryptor.BlockSize()
    ensures r.Err? ==>
      if world.faults == old(world.faults)
      then PlanVersionedDecryption(suite, algorithm, cipher, header, privateKeyPem, passphrase) == Err(r.error)
      else r.error == Crypto && world.faults > old(world.faults)
  {
    hide Decapsulate;
    var checked := header.Versioned(NONCE_SIZE, TAG_SIZE);
    if checked.Err? {
      return Err(checked.error);
    }
    var h := checked.value;
    var failed := world.Fault();
    if failed {
      return Err(Crypto);
    }
    var dataKey := Decapsulate(suite, algorithm, privateKeyPem, passphrase, h.keyMaterial);
    if dataKey.Err? {
      return Err(dataKey.error);
    }
    var decryptor := new StreamCipher(suite, Decrypting, CipherContext(cipher, dataKey.value, h.nonce));
    var authenticated := decryptor.AuthenticateHeader(world, h.authenticatedBytes);
    if authenticated.Err? {
      return Err(authenticated.error);
    }
    r := Ok(DecryptionSession(decryptor, decryptor.BlockSize(), h.tagSize, |h.authenticatedBytes|));
  }

  method PrepareLegacyDecryption(world: World, suite: Suite, input: Input, privateKeyPem: Bytes,
                                 passphrase: Option<Bytes>)
    returns (r: Result<DecryptionSession>)
    requires input.Valid() && forall cipher :: suite.blockSize(cipher) >= 1
    modifies input`pos, world`faults, world`interruptions
    ensures input.Valid()
    ensures r.Ok? ==>
      var plan := PlanLegacyDecryption(suite, input.data[old(input.pos)..], privateKeyPem, passphrase);
      && world.faults == old(world.faults) && plan.Ok?
      && r.value.tagSize == plan.value.tagSize && r.value.headerSize == plan.value.headerSize
      && fresh(r.value.decryptor)
      && Started(r.value.decryptor, suite, Decrypting, plan.value.context, plan.value.aad)
      && r.value.blockSize == r.value.decryptor.BlockSize()
      && input.pos == old(input.pos) + plan.value.headerSize - PREAMBLE_SIZE
    ensures r.Err? ==>
      if world.faults == old(world.faults)
      then PlanLegacyDecryption(suite, input.data[old(input.pos)..], privateKeyPem, passphrase) == Err(r.error)
      else r.error in {Error.Io, Crypto} && world.faults > old(world.faults)
  {
    ghost var rest := input.data[input.pos..];
    var key := LoadPrivateKey(suite, privateKeyPem, passphrase, RsaKind);
    if key.Err? {
      return Err(key.error);
    }
    var failed := world.Fault();
    if failed {
      return Err(Crypto);
    }
    var size := suite.rsaSize(key.value);
    var keyMaterial := new byte[size](i => 0);
    var read := ReadFormatExact(world, input, keyMaterial, IncompleteKeyMaterial);
    if read.Err? {
      return Err(read.error);
    }
    SliceOfSlice(input.data, old(input.pos), 0, size);
    assert keyMaterial[..] == rest[..size];
    var nonce := new byte[LEGACY_NONCE_SIZE](i => 0);
    read := ReadFormatExact(world, input, nonce, IncompleteNonce);
    if read.Err? {
      return Err(read.error);
    }
    SliceOfSlice(input.data, old(input.pos), size, size + LEGACY_NONCE_SIZE);
    assert nonce[..] == rest[size..size + LEGACY_NONCE_SIZE];
    var dataKey := suite.legacyUnwrap(key.value, keyMaterial[..]);
    if dataKey.None? || |dataKey.value| != DATA_KEY_SIZE {
      return Err(AuthenticationFailed);
    }
    var decryptor := new StreamCipher(suite, Decrypting, CipherContext(Aes256Gcm, dataKey.value, nonce[..]));
    r := Ok(DecryptionSession(decryptor, decryptor.BlockSize(), LEGACY_TAG_SIZE,
                              PREAMBLE_SIZE + keyMaterial.Length + nonce.Length));
  }
}
