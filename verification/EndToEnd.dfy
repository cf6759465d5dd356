/** The three commands one after another: generate a pair, encrypt to it, decrypt with it. */
module EndToEnd {
  import opened Common
  import opened Primitives
  import opened KeyEstablishment
  import opened KeyAgreement
  import opened Laws
  import opened Session
  import opened SessionSetup
  import opened TempNames
  import opened FileSystem
  import opened Io
  import opened Transactional
  import opened Application
  import opened KeypairGeneration

  lemma KeysArePublished(s: State, s': State, plan: Plan)
    requires PlanValid(s'.process, plan) && Published(s') == WithBoth(Published(s), plan)
    ensures FileBytes(s'.files, plan.publicPath) == Ok(plan.keys.publicKeyPem)
    ensures FileBytes(s'.files, plan.privatePath) == Ok(plan.keys.privateKeyPem)
  {
    hide IsTemporary, IsStdio;
    assert plan.publicPath in Published(s') && plan.privatePath in Published(s');
  }

  /** What was encrypted decrypts again, for the pair that was generated. */
  lemma EncryptedFileDecrypts(suite: Suite, algorithm: KeyAlgorithm, seed: Bytes, x25519Seed: Bytes,
                              passphrase: Option<Bytes>, answer: Result<Bytes>, choice: Option<Cipher>,
                              random: Randomness, files: map<Path, Bytes>, files': map<Path, Bytes>, stdin: Bytes,
                              publicPath: Path, privatePath: Path, inputPath: Path, encryptedPath: Path,
                              sealedFile: Bytes)
    requires Lawful(suite) && WellSized(random) && Answers(answer, passphrase)
    requires var keys := GenerateKeyPair(suite, algorithm, seed, x25519Seed, passphrase);
             && FileBytes(files, publicPath) == Ok(keys.publicKeyPem)
             && FileBytes(files', privatePath) == Ok(keys.privateKeyPem)
    requires InputBytes(files, stdin, inputPath).Ok? && InputBytes(files', stdin, encryptedPath) == Ok(sealedFile)
    requires Encrypted(suite, files, stdin, inputPath, publicPath, choice, random) == Ok(sealedFile)
    ensures Decrypted(suite, files', stdin, encryptedPath, privatePath, answer) == InputBytes(files, stdin, inputPath)
  {
    hide Lawful, PlanEncryption, SealBody, OpenFile, IsStdio, GenerateKeyPair, AllZero;
    RoundTrip(suite, algorithm, seed, x25519Seed, passphrase, answer, choice, random,
              InputBytes(files, stdin, inputPath).value);
  }

  /** Encryption to a generated pair fails without a fault only for want of a temporary name, or on
      an all-zero shared secret. */
  lemma EncryptionIsSpecified(suite: Suite, algorithm: KeyAlgorithm, seed: Bytes, x25519Seed: Bytes,
                              passphrase: Option<Bytes>, choice: Option<Cipher>, random: Randomness,
                              files: map<Path, Bytes>, stdin: Bytes, publicPath: Path, inputPath: Path)
    requires Lawful(suite) && WellSized(random) && InputBytes(files, stdin, inputPath).Ok?
    requires FileBytes(files, publicPath)
      == Ok(GenerateKeyPair(suite, algorithm, seed, x25519Seed, passphrase).publicKeyPem)
    ensures Encrypted(suite, files, stdin, inputPath, publicPath, choice, random)
         == if algorithm != Rsa && AllZero(EphemeralSecret(suite, x25519Seed, random)) then Err(AuthenticationFailed)
            else SealFile(suite, GenerateKeyPair(suite, algorithm, seed, x25519Seed, passphrase).publicKeyPem, choice,
                          random, InputBytes(files, stdin, inputPath).value)
  {
    hide Lawful, PlanEncryption, SealBody, OpenFile, IsStdio, GenerateKeyPair, AllZero;
    var answer: Result<Bytes> := Ok(if passphrase.Some? then passphrase.value else []);
    RoundTrip(suite, algorithm, seed, x25519Seed, passphrase, answer, choice, random,
              InputBytes(files, stdin, inputPath).value);
  }

  /** The paths the three commands write. */
  function Written(directory: string, encryptedPath: Path, outputPath: Path): (r: set<Path>) {
    {PublicPath(directory), PrivatePath(directory), encryptedPath, outputPath}
  }

  ghost predicate SomeRunsOut(s: State, paths: set<Path>) {
    exists p :: p in paths && RunsOut(s, p)
  }

  lemma PairRunsOut(s: State, s': State, directory: string, keys: KeyPair, r: Result<()>, faults: nat,
                    encryptedPath: Path, outputPath: Path)
    requires PairOutcome(s, s', Plan(PublicPath(directory), PrivatePath(directory), keys), r, faults) && r.Err?
    ensures faults == 0 ==> r.error == NameCollisions && SomeRunsOut(s, Written(directory, encryptedPath, outputPath))
  {
    hide RunsOut, Published, PublicPath, PrivatePath, AllOver;
    assert PublicPath(directory) in Written(directory, encryptedPath, outputPath);
    assert PrivatePath(directory) in Written(directory, encryptedPath, outputPath);
  }

  /** A later command that finds its names taken finds them taken by files from the start, because
      what was published since has no temporary name. */
  lemma CommandRunsOut(s: State, s': State, published: set<Path>, destination: Path, written: set<Path>)
    requires s'.process == s.process && s'.counter >= s.counter && ClashFree(s.process) && Crowded(s', destination)
    requires published <= written <= s.process.destinations && destination in written
    requires s'.files.Keys <= s.files.Keys + published
    ensures SomeRunsOut(s, written)
  {
    hide IsTemporary, Crowded, RunsOut, Spent;
    forall p | p in published
      ensures Spent(s', p)
    {
      OrdinaryIsSpent(s', p);
    }
    CrowdedRunsOut(s, s', published, destination);
  }

  /** The files after the pair has been generated and the input has been encrypted to it. */
  ghost function FilesEncrypted(suite: Suite, files: map<Path, Bytes>, plan: Plan, inputPath: Path, encryptedPath: Path,
                                choice: Option<Cipher>, random: Randomness)
    : (r: map<Path, Bytes>)
    requires inputPath in files && SealFile(suite, plan.keys.publicKeyPem, choice, random, files[inputPath]).Ok?
  {
    var sealed := SealFile(suite, plan.keys.publicKeyPem, choice, random, files[inputPath]).value;
    WithBoth(files, plan)[encryptedPath := sealed]
  }

  /** If all three commands succeed, the output holds the plaintext, for every scheme, cipher, cut
      of the reads and choice of random bytes, also when paths coincide. If no operation fails, they
      do succeed, unless names run out, or the X25519 secret for the published pair and the random
      bytes of this encryption is all zero; then the pair is published and nothing is encrypted. */
  method GenerateEncryptDecrypt(world: World, entropy: RandomSource, suite: Suite, directory: string,
                                passphrase: Option<Bytes>, algorithm: KeyAlgorithm, inputPath: Path,
                                encryptedPath: Path, outputPath: Path, choice: Option<Cipher>, answer: Result<Bytes>)
    returns (r: Result<()>, ghost keys: KeyPair, ghost seed: Bytes, ghost x25519Seed: Bytes, ghost random: Randomness)
    requires world.Valid() && Lawful(suite) && Answers(answer, passphrase)
    requires Written(directory, encryptedPath, outputPath) <= world.state.process.destinations
    requires inputPath in world.state.files && !IsStdio(inputPath) && !IsStdio(encryptedPath) && !IsStdio(outputPath)
    requires inputPath != PublicPath(directory) && inputPath != PrivatePath(directory)
    requires encryptedPath != PrivatePath(directory)
    modifies world, entropy`drawn
    ensures world.Valid()
    ensures seed == entropy.Slice(old(entropy.drawn), 64) && x25519Seed == entropy.Slice(old(entropy.drawn) + 64, 32)
    ensures random == RandomAt(entropy, old(entropy.drawn) + 96)
    ensures r.Ok? ==>
      outputPath in world.state.files && world.state.files[outputPath] == old(world.state).files[inputPath]
    ensures keys == GenerateKeyPair(suite, algorithm, seed, x25519Seed, passphrase)
    ensures r.Ok? && world.faults == old(world.faults) ==>
      var plan, files := Plan(PublicPath(directory), PrivatePath(directory), keys), old(world.state).files;
      && SealFile(suite, keys.publicKeyPem, choice, random, files[inputPath]).Ok?
      && var encrypted := FilesEncrypted(suite, files, plan, inputPath, encryptedPath, choice, random);
      world.state.files == encrypted[outputPath := files[inputPath]]
    ensures r.Err? && world.faults == old(world.faults) ==>
      || (r.error == NameCollisions && SomeRunsOut(old(world.state), Written(directory, encryptedPath, outputPath)))
      || (&& r.error == AuthenticationFailed && algorithm != Rsa && WellSized(random)
          && AllZero(EphemeralSecret(suite, x25519Seed, random))
          && world.state.files
               == WithBoth(old(world.state).files, Plan(PublicPath(directory), PrivatePath(directory), keys)))
  {
    hide Run, Inv, IsTemporary, TempPath, IsStdio, Published, Lawful, CipherLaws, Encrypted, Decrypted, GenerateKeyPair,
         OnlyDelivers, AllConsistent, Crowded, RunsOut, Spent, Answers, PrivatePath, PublicPath, SealFile, SameBut,
         AllZero, EphemeralSecret;
    ghost var s0 := world.state;
    random := RandomAt(entropy, entropy.drawn + 96);
    LawfulCipher(suite);
    NoClash(world);
    r, keys, seed, x25519Seed := GenerateKeypair(world, entropy, suite, directory, passphrase, algorithm);
    if r.Err? {
      PairRunsOut(s0, world.state, directory, keys, r, world.faults - old(world.faults), encryptedPath, outputPath);
      return;
    }
    ghost var s1 := world.state;
    KeyPathsAreOrdinary(s1.process, directory);
    KeysArePublished(s0, s1, Plan(PublicPath(directory), PrivatePath(directory), keys));
    ghost var total, processed;
    r, random, total, processed := Encrypt(world, entropy, suite, inputPath, encryptedPath, PublicPath(directory),
                                           choice);
    EncryptionIsSpecified(suite, algorithm, seed, x25519Seed, passphrase, choice, random, s1.files, world.stdin,
                          PublicPath(directory), inputPath);
    if r.Err? {
      SealFileFails(suite, algorithm, seed, x25519Seed, passphrase, choice, random,
                    InputBytes(s1.files, world.stdin, inputPath).value);
      if world.faults == old(world.faults) && Crowded(s1, encryptedPath) {
        CommandRunsOut(s0, s1, {PublicPath(directory), PrivatePath(directory)}, encryptedPath,
                       Written(directory, encryptedPath, outputPath));
      }
      return;
    }
    ghost var s2 := world.state;
    ghost var sealedFile := Encrypted(suite, s1.files, world.stdin, inputPath, PublicPath(directory), choice,
                                      random).value;
    EncryptedFileDecrypts(suite, algorithm, seed, x25519Seed, passphrase, answer, choice, random, s1.files, s2.files,
                          world.stdin, PublicPath(directory), PrivatePath(directory), inputPath, encryptedPath,
                          sealedFile);
    r, total, processed := Decrypt(world, suite, encryptedPath, outputPath, PrivatePath(directory), answer);
    if r.Err? && world.faults == old(world.faults) && Crowded(s2, outputPath) {
      CommandRunsOut(s0, s2, {PublicPath(directory), PrivatePath(directory), encryptedPath}, outputPath,
                     Written(directory, encryptedPath, outputPath));
    }
  }

  lemma NoClash(world: World)
    requires world.Valid()
    ensures ClashFree(world.state.process)
  {
    hide Inv;
    RunKeepsInv(world.history, |world.history| - 1);
    InvAt(world.state);
  }

  /** Sealing to a generated pair fails only on an all-zero secret. */
  lemma SealFileFails(suite: Suite, algorithm: KeyAlgorithm, seed: Bytes, x25519Seed: Bytes, passphrase: Option<Bytes>,
                      choice: Option<Cipher>, random: Randomness, plaintext: Bytes)
    requires Lawful(suite) && WellSized(random)
    ensures var keys := GenerateKeyPair(suite, algorithm, seed, x25519Seed, passphrase);
            var file := SealFile(suite, keys.publicKeyPem, choice, random, plaintext);
            file.Err? <==> algorithm != Rsa && AllZero(EphemeralSecret(suite, x25519Seed, random))
  {
    hide Lawful, SealFile, OpenFile, GenerateKeyPair, AllZero;
    var answer: Result<Bytes> := Ok(if passphrase.Some? then passphrase.value else []);
    RoundTrip(suite, algorithm, seed, x25519Seed, passphrase, answer, choice, random, plaintext);
  }
}
