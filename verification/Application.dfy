/** The three commands: encrypt a file, decrypt a file, and generate a key pair. */
module Application {
  import opened Common
  import opened Primitives
  import opened KeyEstablishment
  import opened KeyAgreement
  import opened Laws
  import opened FileFormat
  import opened Registry
  import opened Session
  import opened TempNames
  import opened FileSystem
  import opened Io
  import opened Transactional
  import opened HeaderReader
  import opened OpensslStream
  import opened SessionSetup
  import opened Streaming
  import opened Progress

  /** The bytes of the input, if it can be opened. */
  function InputBytes(files: map<Path, Bytes>, stdin: Bytes, path: Path): (r: Result<Bytes>) {
    if IsStdio(path) then Ok(stdin)
    else if path in files then Ok(files[path])
    else Err(Error.Io)
  }

  function FileBytes(files: map<Path, Bytes>, path: Path): (r: Result<Bytes>) {
    if path in files then Ok(files[path]) else Err(Error.Io)
  }

  /** What encrypting should deliver, given the files at the start. */
  function Encrypted(suite: Suite, files: map<Path, Bytes>, stdin: Bytes, inputPath: Path, publicKeyPath: Path,
                     choice: Option<Cipher>, random: Randomness)
    : (r: Result<Bytes>)
  {
    var publicKeyPem :- FileBytes(files, publicKeyPath);
    var sealing :- PlanEncryption(suite, publicKeyPem, choice, random);
    var plaintext :- InputBytes(files, stdin, inputPath);
    Ok(sealing.header + SealBody(suite, sealing.context, sealing.header, plaintext))
  }

  /** What decrypting should deliver. */
  function Decrypted(suite: Suite, files: map<Path, Bytes>, stdin: Bytes, inputPath: Path, privateKeyPath: Path,
                     answer: Result<Bytes>)
    : (r: Result<Bytes>)
  {
    var privateKeyPem :- FileBytes(files, privateKeyPath);
    var file :- InputBytes(files, stdin, inputPath);
    OpenFile(suite, file, privateKeyPem, answer)
  }

  /** Encryption is sealing the file's contents, or those of standard input. An
      unusable key is reported before an input that cannot be opened. */
  lemma EncryptedMeans(suite: Suite, files: map<Path, Bytes>, stdin: Bytes, inputPath: Path, publicKeyPath: Path,
                       choice: Option<Cipher>, random: Randomness)
    ensures var spec := Encrypted(suite, files, stdin, inputPath, publicKeyPath, choice, random);
            if publicKeyPath !in files then spec == Err(Error.Io)
            else if IsStdio(inputPath) then spec == SealFile(suite, files[publicKeyPath], choice, random, stdin)
            else if inputPath in files
            then spec == SealFile(suite, files[publicKeyPath], choice, random, files[inputPath])
            else
              var sealed := SealFile(suite, files[publicKeyPath], choice, random, []);
              spec == if sealed.Err? then Err(sealed.error) else Err(Error.Io)
  {
    hide PlanEncryption, SealBody, IsStdio;
  }

  /** Decryption is opening the file's contents, or those of standard input. */
  lemma DecryptedMeans(suite: Suite, files: map<Path, Bytes>, stdin: Bytes, inputPath: Path, privateKeyPath: Path,
                       answer: Result<Bytes>)
    ensures var spec := Decrypted(suite, files, stdin, inputPath, privateKeyPath, answer);
            if privateKeyPath !in files then spec == Err(Error.Io)
            else if IsStdio(inputPath) then spec == OpenFile(suite, stdin, files[privateKeyPath], answer)
            else if inputPath in files then spec == OpenFile(suite, files[inputPath], files[privateKeyPath], answer)
            else spec == Err(Error.Io)
  {
    hide OpenFile, IsStdio;
  }

  /** A failed command leaves no temporary file unless its removal failed too: a removal is a second
      failure, except when the command failed because it had to. */
  predicate CleansUp(spec: Result<Bytes>, faults: nat) {
    faults == 0 || (spec.Ok? && faults == 1)
  }

  /** A temporary file that was not there before. */
  ghost predicate Leftover(s: State, p: Path) {
    p !in s.files && IsTemporary(s.process, p)
  }

  /** How a command that should deliver `spec` to `destination` may end. On success it has delivered
      exactly that and touched nothing else. On failure nothing is published, nothing is left behind
      unless removing it failed, and without a fault the error is the specified one, or no temporary
      name was free. */
  ghost predicate Outcome(s: State, s': State, destination: Path, spec: Result<Bytes>, r: Result<()>, faults: nat) {
    && AllOver(s', |s.outputs|) && s'.process == s.process && s'.counter >= s.counter
    && if r.Ok? then
      && faults == 0 && spec.Ok?
      && if IsStdio(destination)
         then s'.files == s.files && s'.stdout == s.stdout + spec.value
         else s'.files == s.files[destination := spec.value] && s'.stdout == s.stdout
    else
      && Published(s') == Published(s) && (!IsStdio(destination) ==> s'.stdout == s.stdout)
      && (CleansUp(spec, faults) ==> s'.files == s.files)
      && (faults == 0 ==>
            && s'.stdout == s.stdout
            && ((r.error == NameCollisions && Crowded(s, destination)) || spec == Err(r.error)))
      && (|| s'.files == s.files
          || exists leftover :: Leftover(s, leftover) && SameBut(s.files, s'.files, leftover))
  }

  /** All states passed through: nothing is visible before the delivery, and nothing is delivered
      but a specified result. */
  ghost predicate OnlyDelivers(h: seq<State>, from: nat, s: State, destination: Path, spec: Result<Bytes>) {
    if spec.Ok? then AllDelivering(h, from, s, destination, spec.value) else AllQuiet(h, from, s)
  }

  /** Where a command stands after it has created its output. */
  ghost predicate Created(h: seq<State>, s: State, h': seq<State>, s': State, temporaryPath: Path) {
    && h <= h' && AllQuiet(h', |h|, s) && Quiet(s, s') && s'.process == s.process && s'.counter >= s.counter
    && temporaryPath !in s.files && IsTemporary(s.process, temporaryPath) && s'.files == s.files[temporaryPath := []]
  }

  lemma OutcomeOfEarlyError(h: seq<State>, s: State, h': seq<State>, s': State, destination: Path, spec: Result<Bytes>,
                            error: Error, faults: nat)
    requires h <= h' && AllQuiet(h', |h|, s) && Quiet(s, s') && s'.files == s.files && s'.outputs == s.outputs
    requires s'.process == s.process && s'.counter >= s.counter
    requires faults == 0 ==> (error == NameCollisions && Crowded(s, destination)) || spec == Err(error)
    ensures Outcome(s, s', destination, spec, Err(error), faults)
    ensures OnlyDelivers(h', |h|, s, destination, spec)
  {
    hide Published, IsStdio, Crowded, IsTemporary;
    QuietIsDelivering(h', |h|, s, destination, spec);
  }

  lemma QuietIsDelivering(h: seq<State>, from: nat, s: State, destination: Path, spec: Result<Bytes>)
    requires AllQuiet(h, from, s)
    ensures OnlyDelivers(h, from, s, destination, spec)
  {
    hide Published, IsStdio;
    forall i | from <= i < |h|
      ensures spec.Ok? ==> Delivering(s, h[i], destination, spec.value)
    {
      assert Quiet(s, h[i]);
    }
  }

  /** A command that fails after creating its output and drops it. */
  lemma OutcomeOfDrop(h: seq<State>, s: State, h1: seq<State>, s1: State, h2: seq<State>, s2: State, id: nat,
                      temporaryPath: Path, destination: Path, spec: Result<Bytes>, error: Error, faults: nat)
    requires Created(h, s, h1, s1, temporaryPath) && Staged(h1, s1, h2, s2, id, temporaryPath)
    requires CleansUp(spec, faults) ==> temporaryPath !in s2.files
    requires AllOver(s2, |s.outputs|)
    requires faults == 0 ==> spec == Err(error)
    ensures h <= h2 && Outcome(s, s2, destination, spec, Err(error), faults)
    ensures OnlyDelivers(h2, |h|, s, destination, spec)
  {
    hide Published, IsStdio, Crowded, IsTemporary, OthersUntouched;
    StagedKeepsFrame(h1, s1, h2, s2, id, temporaryPath);
    QuietExtends(h1, h2, |h|, s, s1);
    QuietIsDelivering(h2, |h|, s, destination, spec);
    assert Leftover(s, temporaryPath) && SameBut(s.files, s2.files, temporaryPath);
    if CleansUp(spec, faults) {
      assert s2.files == s2.files - {temporaryPath} == s.files - {temporaryPath} == s.files;
    }
  }

  lemma CreatedThenStaged(h: seq<State>, s: State, h1: seq<State>, s1: State, h2: seq<State>, s2: State, id: nat,
                          temporaryPath: Path)
    requires Created(h, s, h1, s1, temporaryPath) && Staged(h1, s1, h2, s2, id, temporaryPath)
    ensures h <= h2 && AllQuiet(h2, |h|, s) && Quiet(s, s2) && s2.files - {temporaryPath} == s.files
  {
    hide Published, IsTemporary, OthersUntouched;
    QuietExtends(h1, h2, |h|, s, s1);
    assert s1.files - {temporaryPath} == s.files;
  }

  /** A command that has written everything and commits. */
  lemma OutcomeOfCommit(h: seq<State>, s: State, h1: seq<State>, s1: State, h2: seq<State>, s2: State, h3: seq<State>,
                        s3: State, id: nat, temporaryPath: Path, destination: Path, contents: Bytes, r: Result<()>,
                        faults: nat)
    requires Created(h, s, h1, s1, temporaryPath) && Staged(h1, s1, h2, s2, id, temporaryPath)
    requires Delivery(h2, s2, h3, s3, id, destination, contents) && AllOver(s3, |s.outputs|)
    requires r.Ok? ==> faults == 0 && Delivered(s2, s3, destination, temporaryPath, contents)
    requires r.Err? ==>
      && faults > 0 && SameBut(s2.files, s3.files, temporaryPath) && Published(s3) == Published(s2)
      && (!IsStdio(destination) ==> s3.stdout == s2.stdout) && (faults == 1 ==> temporaryPath !in s3.files)
    ensures h <= h3 && Outcome(s, s3, destination, Ok(contents), r, faults)
    ensures OnlyDelivers(h3, |h|, s, destination, Ok(contents))
  {
    hide Published, IsStdio, Crowded, IsTemporary, OthersUntouched, AllQuiet, AllDelivering;
    CreatedThenStaged(h, s, h1, s1, h2, s2, id, temporaryPath);
    StagedKeepsFrame(h1, s1, h2, s2, id, temporaryPath);
    DeliveryKeepsFrame(h2, s2, h3, s3, id, destination, contents);
    DeliveringExtends(h2, h3, |h|, s, s2, destination, contents);
    if r.Err? {
      assert Leftover(s, temporaryPath) && SameBut(s.files, s3.files, temporaryPath);
      if faults == 1 {
        assert s3.files == s3.files - {temporaryPath} == s2.files - {temporaryPath};
      }
    }
  }

  method ReadKeyFile(world: World, path: Path) returns (r: Result<Bytes>)
    modifies world`faults
    ensures r.Ok? ==> world.faults == old(world.faults) && FileBytes(world.state.files, path) == r
    ensures r.Err? ==> r.error == Error.Io
    ensures r.Err? ==>
      if world.faults == old(world.faults) then FileBytes(world.state.files, path) == r
        else world.faults > old(world.faults)
  {
    var contents := world.ReadFile(path);
    if contents.Err? || contents.value.None? {
      return Err(Error.Io);
    }
    r := Ok(contents.value.value);
  }

  /** The end of a command: an output that could not be filled is dropped, a full one committed. */
  method Conclude(world: World, output: TransactionalOutput, filled: Result<()>, ghost h: seq<State>, ghost s: State,
                  ghost h1: seq<State>, ghost s1: State, ghost spec: Result<Bytes>, ghost faults: nat)
    returns (r: Result<()>)
    requires output.world == world && output.Is(Writing) && output.id == |s.outputs| == |world.state.outputs| - 1
    requires Created(h, s, h1, s1, output.temporaryPath)
    requires Staged(h1, s1, world.history, world.state, output.id, output.temporaryPath)
    requires filled.Ok? ==> world.faults == faults && spec == Ok(output.Contents())
    requires filled.Err? ==> if world.faults == faults then spec == Err(filled.error) else world.faults > faults
    modifies world, output
    ensures world.Valid() && h <= world.history && world.faults >= faults && (r.Ok? ==> filled.Ok?)
    ensures Outcome(s, world.state, output.destination, spec, r, world.faults - faults)
    ensures OnlyDelivers(world.history, |h|, s, output.destination, spec)
  {
    hide Run, Inv, IsTemporary, TempPath, IsStdio, Published, Outcome, OnlyDelivers, Created, Staged, Delivery,
         Delivered, SameBut, OthersUntouched;
    ghost var h2, s2 := world.history, world.state;
    if filled.Err? {
      output.Drop();
      StagedKeepsFrame(h2, s2, world.history, world.state, output.id, output.temporaryPath);
      StagedTwice(h1, s1, h2, s2, world.history, world.state, output.id, output.temporaryPath);
      OutcomeOfDrop(h, s, h1, s1, world.history, world.state, output.id, output.temporaryPath, output.destination, spec,
                    filled.error, world.faults - faults);
      return filled;
    }
    ghost var contents := output.Contents();
    r := output.Commit();
    DeliveryKeepsFrame(h2, s2, world.history, world.state, output.id, output.destination, contents);
    OutcomeOfCommit(h, s, h1, s1, h2, s2, world.history, world.state, output.id, output.temporaryPath,
                    output.destination, contents, r, world.faults - faults);
  }

  // ---- Decryption ----

  /** Everything before the output is created. */
  method StartDecryption(world: World, suite: Suite, inputPath: Path, privateKeyPath: Path, answer: Result<Bytes>)
    returns (r: Result<(Input, DecryptionSession)>, ghost opening: Opening)
    requires CipherLaws(suite)
    modifies world`faults, world`interruptions
    ensures r.Ok? ==>
      var (input, session) := r.value;
      && fresh(input) && fresh(session.decryptor) && world.faults == old(world.faults)
      && input.Valid() && input.pos == opening.headerSize
      && InputBytes(world.state.files, world.stdin, inputPath) == Ok(input.data)
      && input.size == (if IsStdio(inputPath) then None else Some(|input.data|))
      && FileBytes(world.state.files, privateKeyPath).Ok?
      && PlanDecryption(suite, input.data, FileBytes(world.state.files, privateKeyPath).value, answer) == Ok(opening)
      && session.tagSize == opening.tagSize && session.headerSize == opening.headerSize
      && Started(session.decryptor, suite, Decrypting, opening.context, opening.aad)
      && session.blockSize == session.decryptor.BlockSize()
    ensures r.Err? ==>
      if world.faults == old(world.faults)
      then Decrypted(suite, world.state.files, world.stdin, inputPath, privateKeyPath, answer) == Err(r.error)
      else world.faults > old(world.faults)
  {
    hide PlanMethod, ParseHeader, MethodForHeader, RequestPassphrase, IsStdio;
    opening := Opening(CipherContext(Aes256Gcm, [], []), [], 0, 0);
    var pem := ReadKeyFile(world, privateKeyPath);
    if pem.Err? {
      return Err(pem.error), opening;
    }
    var source := OpenInput(world, inputPath);
    if source.Err? {
      return Err(source.error), opening;
    }
    var input := source.value;
    var header := ReadHeader(world, input);
    if header.Err? {
      return Err(header.error), opening;
    }
    var chosen := MethodForHeader(header.value);
    if chosen.Err? {
      return Err(chosen.error), opening;
    }
    var passphrase := RequestPassphrase(pem.value, answer);
    if passphrase.Err? {
      return Err(passphrase.error), opening;
    }
    ghost var size := input.pos;
    var session := PrepareDecryption(world, suite, chosen.value, input, header.value, pem.value, passphrase.value);
    if session.Err? {
      return Err(session.error), opening;
    }
    opening := PlanDecryption(suite, input.data, pem.value, answer).value;
    HeaderFits(suite, input.data, pem.value, answer);
    ChosenByHeader(header.value, chosen.value);
    if header.value.Legacy? {
      LegacyPreambleSize(input.data);
    }
    r := Ok((input, session.value));
  }

  lemma ChosenByHeader(header: FileHeader, chosen: DecryptionMethod)
    requires MethodForHeader(header) == Ok(chosen)
    ensures header.Legacy? <==> chosen.LegacyMethod?
  {
  }

  /** Decrypts `inputPath` to `outputPath`, which may be the same file. `total` and `processed` are
      what the progress display was given. */
  method Decrypt(world: World, suite: Suite, inputPath: Path, outputPath: Path, privateKeyPath: Path,
                 answer: Result<Bytes>)
    returns (r: Result<()>, ghost total: Option<nat>, ghost processed: nat)
    requires world.Valid() && CipherLaws(suite) && outputPath in world.state.process.destinations
    modifies world
    ensures world.Valid() && old(world.history) <= world.history && world.faults >= old(world.faults)
    ensures Outcome(old(world.state), world.state, outputPath,
                    Decrypted(suite, old(world.state).files, world.stdin, inputPath, privateKeyPath, answer),
                    r, world.faults - old(world.faults))
    ensures OnlyDelivers(world.history, |old(world.history)|, old(world.state), outputPath,
                         Decrypted(suite, old(world.state).files, world.stdin, inputPath, privateKeyPath, answer))
    ensures r.Ok? && !IsStdio(inputPath) ==>
      total == Some(processed)
        && AllButFraming(suite, old(world.state).files, inputPath, privateKeyPath, answer, processed)
  {
    hide Run, Inv, IsTemporary, TempPath, IsStdio, Published, PlanDecryption, OpenBody, Outcome, OnlyDelivers,
         CipherLaws, Crowded;
    ghost var h, s := world.history, world.state;
    ghost var spec := Decrypted(suite, s.files, world.stdin, inputPath, privateKeyPath, answer);
    var start;
    ghost var opening;
    start, opening := StartDecryption(world, suite, inputPath, privateKeyPath, answer);
    if start.Err? {
      OutcomeOfEarlyError(h, s, world.history, world.state, outputPath, spec, start.error,
                          world.faults - old(world.faults));
      return Err(start.error), None, 0;
    }
    var (input, session) := start.value;
    HeaderFits(suite, input.data, FileBytes(s.files, privateKeyPath).value, answer);
    r, total, processed := DecryptTo(world, input, session, outputPath, opening);
  }

  /** `processed` is the size of the file without its header and its tag, in either layout. */
  ghost predicate AllButFraming(suite: Suite, files: map<Path, Bytes>, inputPath: Path, privateKeyPath: Path,
                                answer: Result<Bytes>, processed: nat)
  {
    && inputPath in files && privateKeyPath in files
    && var plan := PlanDecryption(suite, files[inputPath], files[privateKeyPath], answer);
    plan.Ok? && plan.value.headerSize + processed + plan.value.tagSize == |files[inputPath]|
  }

  method DecryptTo(world: World, input: Input, session: DecryptionSession, outputPath: Path, ghost opening: Opening)
    returns (r: Result<()>, ghost total: Option<nat>, ghost processed: nat)
    requires world.Valid() && outputPath in world.state.process.destinations
    requires input.Valid() && input.pos == opening.headerSize
    requires session.tagSize == opening.tagSize && session.headerSize == opening.headerSize
    requires Started(session.decryptor, session.decryptor.suite, Decrypting, opening.context, opening.aad)
    requires session.blockSize == session.decryptor.BlockSize()
    modifies world, input`pos, session.decryptor
    ensures world.Valid() && old(world.history) <= world.history && world.faults >= old(world.faults)
    ensures Outcome(old(world.state), world.state, outputPath,
                    OpenBody(session.decryptor.suite, opening, input.data[opening.headerSize..]),
                    r, world.faults - old(world.faults))
    ensures OnlyDelivers(world.history, |old(world.history)|, old(world.state), outputPath,
                         OpenBody(session.decryptor.suite, opening, input.data[opening.headerSize..]))
    ensures r.Ok? && input.size.Some? ==> total == Some(processed)
    ensures r.Ok? ==> opening.headerSize + processed + opening.tagSize == |input.data|
  {
    hide Run, Inv, IsTemporary, TempPath, IsStdio, Published, Outcome, OnlyDelivers, Crowded, SameBut, OthersUntouched,
         Stream, OpenBody, Staged;
    total, processed := None, 0;
    ghost var h, s := world.history, world.state;
    ghost var spec := OpenBody(session.decryptor.suite, opening, input.data[opening.headerSize..]);
    var framing := session.headerSize + session.tagSize;
    var ciphertextSize := if input.size.None? then None else Some(SaturatingSub(input.size.value, framing));
    var created := TransactionalOutput.New(world, outputPath);
    if created.Err? {
      OutcomeOfEarlyError(h, s, world.history, world.state, outputPath, spec, created.error,
                          world.faults - old(world.faults));
      return Err(created.error), total, processed;
    }
    var output := created.value;
    ghost var h1, s1 := world.history, world.state;
    var meter := new Meter(ciphertextSize);
    var filled := DecryptStream(world, input, session.decryptor, session.blockSize, session.tagSize, output, meter,
                                opening);
    total, processed := meter.total, meter.processed;
    StagedKeepsFrame(h1, s1, world.history, world.state, output.id, output.temporaryPath);
    r := Conclude(world, output, filled, h, s, h1, s1, spec, old(world.faults));
  }

  function SaturatingSub(a: nat, b: nat): (r: nat) {
    if a >= b then a - b else 0
  }

  // ---- Encryption ----

  /** Encrypts `inputPath` to `outputPath`, which may be the same file. */
  method Encrypt(world: World, entropy: RandomSource, suite: Suite, inputPath: Path, outputPath: Path,
                 publicKeyPath: Path, choice: Option<Cipher>)
    returns (r: Result<()>, ghost random: Randomness, ghost total: Option<nat>, ghost processed: nat)
    requires world.Valid() && CipherLaws(suite) && outputPath in world.state.process.destinations
    modifies world, entropy`drawn
    ensures world.Valid() && old(world.history) <= world.history && world.faults >= old(world.faults)
    ensures random == RandomAt(entropy, old(entropy.drawn))
    ensures entropy.drawn == old(entropy.drawn) + 108 || (r.Err? && entropy.drawn == old(entropy.drawn))
    ensures Outcome(old(world.state), world.state, outputPath,
                    Encrypted(suite, old(world.state).files, world.stdin, inputPath, publicKeyPath, choice, random),
                    r, world.faults - old(world.faults))
    ensures OnlyDelivers(world.history, |old(world.history)|, old(world.state), outputPath,
                         Encrypted(suite, old(world.state).files, world.stdin, inputPath, publicKeyPath, choice,
                                   random))
    ensures r.Ok? && !IsStdio(inputPath) ==>
      inputPath in old(world.state).files && total == Some(processed) == Some(|old(world.state).files[inputPath]|)
  {
    hide Run, Inv, IsTemporary, TempPath, IsStdio, Published, PlanEncryption, SealBody, Outcome, OnlyDelivers, Crowded;
    ghost var h, s := world.history, world.state;
    random := RandomAt(entropy, entropy.drawn);
    total, processed := None, 0;
    ghost var spec := Encrypted(suite, s.files, world.stdin, inputPath, publicKeyPath, choice, random);
    var pem := ReadKeyFile(world, publicKeyPath);
    if pem.Err? {
      OutcomeOfEarlyError(h, s, world.history, world.state, outputPath, spec, pem.error,
                          world.faults - old(world.faults));
      return Err(pem.error), random, total, processed;
    }
    var session;
    session, random := PrepareEncryption(world, entropy, suite, pem.value, choice);
    spec := Encrypted(suite, s.files, world.stdin, inputPath, publicKeyPath, choice, random);
    if session.Err? {
      OutcomeOfEarlyError(h, s, world.history, world.state, outputPath, spec, session.error,
                          world.faults - old(world.faults));
      return Err(session.error), random, total, processed;
    }
    var source := OpenInput(world, inputPath);
    if source.Err? {
      OutcomeOfEarlyError(h, s, world.history, world.state, outputPath, spec, source.error,
                          world.faults - old(world.faults));
      return Err(source.error), random, total, processed;
    }
    r, total, processed := EncryptTo(world, source.value, session.value, outputPath);
  }

  method EncryptTo(world: World, input: Input, session: EncryptionSession, outputPath: Path)
    returns (r: Result<()>, ghost total: Option<nat>, ghost processed: nat)
    requires world.Valid() && outputPath in world.state.process.destinations && input.Valid() && input.pos == 0
    requires Started(session.encryptor, session.encryptor.suite, Encrypting, session.encryptor.context, session.header)
    requires session.blockSize == session.encryptor.BlockSize()
    requires forall aad, ciphertext ::
      |session.encryptor.suite.tag(session.encryptor.context, aad, ciphertext)| == session.tagSize
    modifies world, input`pos, session.encryptor
    ensures world.Valid() && old(world.history) <= world.history && world.faults >= old(world.faults)
    ensures Outcome(old(world.state), world.state, outputPath, Ok(SealedWith(session, input.data)), r,
                    world.faults - old(world.faults))
    ensures OnlyDelivers(world.history, |old(world.history)|, old(world.state), outputPath,
                         Ok(SealedWith(session, input.data)))
    ensures r.Ok? && input.size.Some? ==> total == Some(processed) == Some(|input.data|)
  {
    hide Run, Inv, IsTemporary, TempPath, IsStdio, Published, Outcome, OnlyDelivers, Crowded, SameBut, OthersUntouched,
         Stream, SealBody, Staged;
    total, processed := None, 0;
    ghost var h, s := world.history, world.state;
    ghost var spec := Ok(SealedWith(session, input.data));
    var created := TransactionalOutput.New(world, outputPath);
    if created.Err? {
      OutcomeOfEarlyError(h, s, world.history, world.state, outputPath, spec, created.error,
                          world.faults - old(world.faults));
      return Err(created.error), total, processed;
    }
    var output := created.value;
    ghost var h1, s1 := world.history, world.state;
    var filled := output.Write(session.header);
    if filled.Ok? {
      assert [] + session.header == session.header;
      var meter := new Meter(input.size);
      ghost var h2, s2 := world.history, world.state;
      filled := EncryptStream(world, input, session.encryptor, session.blockSize, session.tagSize, output, meter);
      StagedTwice(h1, s1, h2, s2, world.history, world.state, output.id, output.temporaryPath);
      total, processed := meter.total, meter.processed;
    }
    StagedKeepsFrame(h1, s1, world.history, world.state, output.id, output.temporaryPath);
    r := Conclude(world, output, filled, h, s, h1, s1, spec, old(world.faults));
  }

  ghost function SealedWith(session: EncryptionSession, plaintext: Bytes): (r: Bytes) {
    session.header + SealBody(session.encryptor.suite, session.encryptor.context, session.header, plaintext)
  }
}
