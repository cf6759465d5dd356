# muenc in Dafny

muenc encrypts a file of any length to a public key, in one pass and with fixed-size buffers, and
publishes the result only when it is complete. This project models everything muenc itself does
around the cryptographic library, and proves what it is for: whatever is encrypted decrypts to the
same bytes, nothing unauthenticated is ever published, and existing files survive every failure.

## How the model is built

- **Cryptography** (`Primitives.dfy`, `Laws.dfy`, `ToySuite.dfy`). A `Suite` is a record of
  uninterpreted functions. `Laws.Lawful` states what is assumed of them: lengths, that encoded keys
  are single PEM blocks that parse back, that Diffie-Hellman commutes (section 6.1 of RFC 7748),
  that ML-KEM decapsulation recovers the secret (section 7 of FIPS 203), and that RSA unwrapping
  undoes wrapping. HKDF (section 2 of RFC 5869) and the tag of the AEAD (section 2 of RFC 5116) are
  functions of which only the output length is assumed. `ToySuite.ToyIsLawful` gives an instance, so
  the laws are consistent. The cipher is a keystream indexed by algorithm, key, nonce and position,
  combined by exclusive or.
- **The operating system** (`Io.dfy`). A `World` holds the files. Every operation may fail at any
  time; `faults` counts the failures, so "without a fault" is a condition on the counter before and
  after. A read delivers any positive number of bytes that fits, and may be interrupted any finite
  number of times; nothing else is assumed of it. Random bytes come from a `RandomSource`, a stream
  of which each byte is handed out once.
  `history` records every state the run passes through, so a claim about all of it is a claim about
  every point at which the process may stop.
- **The output protocol** (`TempNames.dfy`, `FileSystem.dfy`, `Interleaving.dfy`, `Clashes.dfy`,
  `Transactional.dfy`). The steps of all outputs form one state machine in which they interleave
  freely. Every change the classes make to the `World` goes through `World.Perform`, whose contract
  is one step of that machine, so `World.Valid()` says that the history is a run of it. A `Process`
  names every path it is ever asked to write (`destinations`); nothing is demanded of their names
  except that none is the path of a temporary file for another (`ClashFree`). A command that writes
  one file always meets that (`TempNames.OneDestinationIsClashFree`), and so do any destinations
  that do not end in `.tmp` (`TempNames.OtherSuffixIsClashFree`).
- **Specifications** (`Pem.dfy`, `KeyEstablishment.dfy`, `FileFormat.dfy`, `Registry.dfy`,
  `Session.dfy`). Pure functions say what a whole encrypted file is (`SealFile`) and what opening
  one gives (`OpenFile`), error by error, in the structure of the source. `WireFormat.dfy` writes the
  format and the rules for accepting a file down a second time, from the bytes up and with literal
  numbers, and proves the two equal for every input.
- **The imperative code** (`HeaderReader.dfy`, `OpensslStream.dfy`, `SessionSetup.dfy`,
  `Streaming.dfy`, `Application.dfy`, `KeypairGeneration.dfy`, `Progress.dfy`). Readers, cipher
  objects, buffers and loops in the shape of the source, proved against those functions. Safety of
  encryption and decryption needs only `Laws.CipherLaws`, which fixes the lengths of HKDF output and
  tag and a positive block size; the laws of key agreement enter with the round trip.

The main results are `Session.RoundTrip`, `Application.Encrypt`, `Application.Decrypt`,
`KeypairGeneration.GenerateKeypair`, `EndToEnd.GenerateEncryptDecrypt`,
`WireFormat.SealFileWrites`, `WireFormat.OpenFileReads`, `Interleaving.LastPublicationStands`,
`Clashes.FaithfulExactlyIfClashFree`, `Pem.SplitCharacterised` and `FileFormat.ParseOfEncode`.

## Where the code is narrower than its description

- The header printer narrows its lengths to 16 and 32 bits without a check. It round-trips exactly
  for the lengths the parser accepts (`FileFormat.ParseOfEncode`, an if and only if); the schemes
  only produce such lengths (`KeyAgreement.SchemesAgree`).
- `README.md:73-74` says that decryption prompts only for encrypted keys. The code prompts when the
  letters of the mark occur anywhere in the file (`Session.PromptsExactlyWhenMarked`).
  `ToySuite.UnencryptedKeyIsPrompted` gives an unencrypted key file that is prompted for and that a
  refusal makes useless. A generated key without a passphrase decrypts without an answer exactly if
  the mark does not occur in its file (`Session.UnencryptedKeyNeedsNoAnswer`).
- An encryption to an X25519 or hybrid key is refused when the shared secret is all zero, and in no
  other case for a generated key (`Session.RoundTrip`); `ToySuite.ZeroSecretIsRefused` gives such an
  encryption.
- `src/crypto/key_utils.rs:11-12` speaks of end *lines*. The code looks for the marker anywhere in a
  line and for the next five dashes anywhere after it. `PemLines.MarkerAcrossLines` gives a file on
  which the two differ, and `PemLines.SplitsOnLines` says exactly when they agree: every block that
  is followed by anything must end with an end line.
- `src/io.rs:43-44` promises that an output exposes its own result once that is complete. When a process
  writes several destinations, this holds of all its runs if and only if none of them is the path of
  a temporary file for another (`Clashes.FaithfulExactlyIfClashFree`, with the run that goes wrong in
  `Clashes.MixUp`).

## Model

| member | source | states |
|---|---|---|
| Session.RoundTrip | src/application.rs:67-179 | For every lawful suite, scheme, cipher choice, generated pair, passphrase, random bytes and plaintext: sealing fails exactly on an all-zero X25519 secret, and otherwise the file opens to the plaintext with the matching key |
| Session.LegacyRoundTrip | src/crypto/algorithms/legacy_rsa_aes_gcm.rs:15-48 | A file in the unversioned layout opens to its plaintext with the RSA key it was written for, encrypted or not |
| EndToEnd.GenerateEncryptDecrypt | tests/compatibility.rs:90-136 | Generating, encrypting and decrypting on one file system, with any cut of the reads, also onto the same path: if all succeed, the output holds the original input, and without a fault the files are exactly the old ones with the pair, its sealed file and the output; without a fault they fail only if 100 temporary names in a row were taken at the start, or if the X25519 secret for the published pair is all zero, and then the pair is published and nothing is encrypted |
| EndToEnd.EncryptedFileDecrypts | src/application.rs:67-179 | What Encrypt is specified to deliver, Decrypt is specified to turn back, for the files of a generated pair |
| Application.Encrypt | src/application.rs:67-105 | For every library with the right output lengths and every destination of a clash-free process: delivers exactly the sealed file or publishes nothing, in every state of the run; leaves no new file unless a second failure prevents its removal; the progress total is reached |
| Application.Decrypt | src/application.rs:107-179 | Under the same conditions: delivers exactly what OpenFile specifies, with the same error otherwise; while that is an error nothing is visible in any state, file or standard output; progress counts the file without header and tag |
| Application.EncryptedMeans | src/application.rs:73-79 | What Encrypt is specified to deliver is the sealed contents of the input file or of standard input; an unusable key is reported before an input that cannot be opened |
| Application.DecryptedMeans | src/application.rs:116-134 | The same for Decrypt and opening |
| WireFormat.SealFileWrites | src/crypto/registry.rs:71-99 | For every public-key file, whatever it holds: encryption writes exactly the file that is spelled out byte by byte in literal numbers, salts and sizes from the library's operations alone, with the requested or the literal default cipher, or gives exactly the stated error |
| WireFormat.OpenFileReads | src/application.rs:107-179 | For every file, key file and answer, well-formed or not: decryption gives exactly the plaintext or the error of a reader written with literal offsets, in the order the checks are made |
| WireFormat.WrongPassphraseIsReported | src/crypto/key_utils.rs:39-45 | A passphrase that opens nothing is the error, unless the framing or the ids of the file are refused first |
| Session.RequestedCipherIsUsed | src/crypto/registry.rs:71-81 | The cipher that is started is the requested one, or AES-256-GCM for RSA and ChaCha20-Poly1305 otherwise, and the header names it with the scheme to every reader |
| Application.Conclude | src/io.rs:112-167 | A filled output is published at once and a failed one dropped, with the whole run seen from the state before the output existed |
| Session.OpenUndoesSeal | src/application.rs:144-175 | Opening a sealed body under the same key, nonce and header gives the plaintext |
| Session.SealUndoesOpen | src/application.rs:144-175 | Conversely a body is accepted only if it is what sealing the result produces |
| Session.AcceptedFileIsCovered | src/crypto/session.rs:67-78 | An accepted version-1 file is the authenticated header followed by the sealed plaintext, with no byte over and with the full nonce and tag |
| Session.PartsAreUnique | src/file_format.rs:75-134 | Header, ciphertext and tag are determined by the file: two files are equal exactly if all three parts are |
| Session.HeaderFits | src/crypto/session.rs:73-78 | The recorded header size is where the body begins: after the parsed header, which is authenticated in full, or after preamble, wrapped key and nonce of the unversioned layout, none of which is |
| Session.HeaderLeadsBack | src/crypto/registry.rs:101-128 | The header written for a scheme and cipher parses, selects that pair and passes its size check, whatever follows |
| Session.GeneratedFileIsDispatched | src/crypto/registry.rs:85-99 | The public file of a generated pair selects the scheme it was generated for |
| Session.CrLfKeepsScheme | src/crypto/registry.rs:85-99 | A generated single-key file that ends in a carriage return and a line feed selects its own scheme, if the library reads it as before |
| Session.PassphraseReachesLoader | src/application.rs:120-123 | The right passphrase reaches the key loader for every generated key file, hybrid ones included |
| Session.PromptsExactlyWhenMarked | src/crypto/key_utils.rs:6-9 | The user is asked if and only if the mark occurs somewhere in the file |
| Session.UnencryptedKeyNeedsNoAnswer | src/application.rs:120-123 | A generated key without a passphrase decrypts under a refused prompt if and only if its file does not hold the mark; otherwise the refusal is the error |
| ToySuite.UnencryptedKeyIsPrompted | src/crypto/key_utils.rs:6-9 | An unencrypted key file that loads without a passphrase and is prompted for |
| ToySuite.ZeroSecretIsRefused | src/crypto/algorithms/x25519.rs:94-115 | An encryption to a generated X25519 or hybrid pair that is refused because the shared secret is all zero |
| Session.PlansAgree | src/crypto/session.rs:26-79 | The receiver rebuilds the sender's cipher, data key, nonce and authenticated data from the header |
| Streaming.EncryptStream | src/application.rs:84-101 | For every cut of the reads and every amount the cipher holds back, the output receives the sealed body of the whole input |
| Streaming.DecryptStream | src/application.rs:144-175 | For every cut of the reads, the output receives what OpenBody specifies for the rest of the input, or the same error is returned |
| Streaming.DecryptLoop | src/application.rs:139-166 | Bytes fed to the decryptor and pending bytes are together the body read so far; pending fits the space reserved for it |
| Streaming.Drain | src/application.rs:153-165 | One round feeds everything but the last tag-size bytes, which end up at the front; buffer and room suffice for any block size |
| Streaming.SlidingStep | src/application.rs:152-165 | Taking in a chunk of any size keeps the window over the end of the body |
| Streaming.SlidingAtEnd | src/application.rs:168-173 | At the end of input the pending bytes are the tag and the decryptor has seen the rest, unless the body is shorter than a tag |
| OpensslStream.StreamCipher.Update | src/crypto/openssl_stream.rs:20-24 | Output continues where it stopped, for any input size, with less than a block held back |
| OpensslStream.StreamCipher.Finalize | src/crypto/openssl_stream.rs:66-71 | Hands out the rest; when decrypting it succeeds only if the tag covers all authenticated data and ciphertext |
| Primitives.StreamIsKeystream | src/crypto/openssl_stream.rs:20-24 | Every byte is combined bit by bit with the keystream byte at its own position |
| SessionSetup.PrepareEncryption | src/crypto/session.rs:21-49 | Header, authenticated data, key and nonce of the started cipher are those of one plan, whose random bytes are fresh and disjoint pieces of the random source |
| SessionSetup.PrepareVersionedDecryption | src/crypto/session.rs:60-79 | The same on the receiving side, with the errors in order |
| SessionSetup.PrepareLegacyDecryption | src/crypto/algorithms/legacy_rsa_aes_gcm.rs:15-48 | Reads the unversioned fields through any cut of the reads, and accounts for every header byte |
| FileFormat.ParseOfEncode | src/file_format.rs:75-134 | Parsing a printed header gives it back and takes up exactly its bytes, if and only if the lengths are in range |
| FileFormat.HeaderLayout | src/file_format.rs:75-93 | Every byte of a printed header at its literal offset: magic, version, scheme, cipher, the three lengths high byte first, key material, nonce |
| FileFormat.ParseDecides | src/file_format.rs:56-134 | For every input, the parsed header or the error, told from literal offsets and limits |
| FileFormat.EncodeOfParse | src/file_format.rs:95-134 | Every accepted version-1 input begins with the printed form of the result, and the rebuilt authenticated bytes are the consumed ones |
| FileFormat.HeaderIsSelfDelimiting | src/file_format.rs:56-134 | Nothing after the header affects how it parses |
| FileFormat.HeaderSplitIsUnique | src/file_format.rs:56-134 | No accepted header is a proper prefix of another |
| HeaderReader.ReadHeader | src/file_format.rs:56-72 | Reading from the stream in pieces gives the parse of the whole input, position and error included |
| HeaderReader.ReadVersionedHeader | src/file_format.rs:95-134 | The same for the versioned part |
| Io.Input.ReadExact | src/file_format.rs:136-148 | Fills the buffer with the next bytes for any cut of the reads and any interruptions, or reports a premature end exactly when there is one |
| Pem.SplitCharacterised | src/crypto/key_utils.rs:13-31 | The blocks are the only partition into minimal closed blocks and a blank remainder, with unclosed text as the last block |
| Pem.BlockEndIs | src/crypto/key_utils.rs:17-30 | A block ends right behind the first dashes after the first end marker, and nowhere else |
| Pem.TailIsDropped | src/crypto/key_utils.rs:27-29 | Text after a closed block goes uncounted if and only if each byte of it is a tab, line feed, form feed, carriage return or space |
| Pem.Spelling | src/crypto/key_utils.rs:7-15 | Marker, dashes and mark are these ASCII texts |
| Pem.SplitOfConcatenation | src/crypto/key_utils.rs:13-31 | Splitting is compositional when only blank text is left over, which moves into the next block |
| Pem.TwoBlockFileSplits | src/crypto/algorithms/x25519_mlkem768.rs:58-73 | Two single-block files joined end to end split into exactly those two blocks, in order |
| PemLines.SplitsOnLines | src/crypto/key_utils.rs:11-31 | The code splits a file after end lines, as described, if and only if every block that is followed by anything ends with an end line |
| PemLines.BlockEndsOnLine | src/crypto/key_utils.rs:11-31 | The first block ends where the description says if and only if its marker starts a line and the first dashes after it end that line; it never ends later |
| PemLines.MarkerAcrossLines | src/crypto/key_utils.rs:11-31 | A file that the code splits in two and the description does not split |
| Pem.BlockEndStable | src/crypto/key_utils.rs:17-30 | Where a block ends does not depend on what follows |
| Pem.SplitPem | src/crypto/key_utils.rs:13-31 | The loop over the shrinking rest computes the specified blocks and terminates |
| Pem.FindIsFirst | src/crypto/key_utils.rs:33-37 | The search answers with a position exactly if that is the first occurrence |
| KeyAgreement.SchemesAgree | src/crypto/mod.rs:42-57 | For every scheme the recipient recovers the sender's data key, and the key material fits the header |
| KeyAgreement.HybridAgrees | src/crypto/algorithms/x25519_mlkem768.rs:81-200 | For a generated hybrid pair the recipient recovers the data key and the key material has its fixed size, or the all-zero secret is refused |
| KeyAgreement.HybridInputsAgree | src/crypto/algorithms/x25519_mlkem768.rs:93-200 | The key material is the ML-KEM ciphertext and the ephemeral key, splitting it at 1088 undoes the append, and both ends feed HKDF both secrets in order as input key and the key material and both public keys as context |
| KeyAgreement.X25519Agrees | src/crypto/algorithms/x25519.rs:60-92 | Both ends derive the same key, or the all-zero secret is refused |
| KeyAgreement.X25519InputsAgree | src/crypto/algorithms/x25519.rs:60-92 | The data key is derived from the shared secret with the ephemeral and the recipient's public key as context, the same on both ends |
| KeyAgreement.SaltsSpelled | src/crypto/algorithms/x25519.rs:23 | The two salts are these ASCII texts |
| KeyAgreement.RsaAgrees | src/crypto/algorithms/rsa_oaep.rs:63-115 | The wrapped key unwraps to the data key that was drawn |
| KeyAgreement.HybridPrivateLoads | src/crypto/algorithms/x25519_mlkem768.rs:135-152 | A generated hybrid private file loads as its two keys, with its passphrase or, if it has none, any |
| KeyAgreement.EveryBlockIsEncrypted | src/crypto/algorithms/x25519_mlkem768.rs:67-73 | With a passphrase every block of a generated private-key file is an encrypted one: two for a hybrid pair, one otherwise |
| KeyAgreement.HybridPrivateFileWithMore | src/crypto/key_utils.rs:11-31 | A hybrid private-key file stays loadable under appended text if and only if that text is blank; otherwise the error is the algorithm mismatch |
| KeyAgreement.HybridPublicFileWithMore | src/crypto/algorithms/x25519_mlkem768.rs:81-91 | The same for a hybrid public-key file, which is otherwise rejected as invalid |
| Session.OpeningSizes | src/crypto/session.rs:60-79 | Whatever the file and the key, a decryption that is started has a 32-byte data key and the nonce and tag sizes of its layout |
| KeyAgreement.HybridKdfInputInjective | src/crypto/algorithms/x25519_mlkem768.rs:178-200 | Both secrets, the key material and both public keys are determined by the HKDF inputs |
| KeyAgreement.X25519KdfInputInjective | src/crypto/algorithms/x25519.rs:117-136 | The ephemeral and the recipient key are determined by the HKDF context |
| ToySuite.ToyIsLawful | src/crypto/kem.rs:63-152 | The assumed laws hold together of a concrete suite |
| Registry.DetailsSelectTheirMethod | src/crypto/registry.rs:109-128 | Header ids select a pair if and only if they are its ids; other ids are reported |
| Registry.MethodsByNumber | src/crypto/registry.rs:108-128 | For every pair of numbers: 1 to 3 are RSA, X25519 and the hybrid scheme, 1 and 2 the two ciphers, and anything else is reported as unsupported |
| Registry.DispatchAgreesWithLoading | src/crypto/registry.rs:85-99 | A key file is dispatched to a single-key scheme if and only if that scheme's loader accepts it, and to the hybrid scheme if and only if it has two blocks |
| Registry.LineEndKeepsScheme | src/crypto/registry.rs:85-99 | A file of one block is dispatched by the type of its key whatever blank text follows, and with other text after it never |
| Registry.LoaderDecides | src/crypto/key_utils.rs:48-57 | For every file, what a single-key loader answers and with which error it refuses |
| FileSystem.StepRefines | src/io.rs:112-167 | Seen through the published files, a step is a whole-file replacement, a deletion, or nothing |
| FileSystem.StepKeepsInv | src/io.rs:54-167 | Every step of every output keeps each temporary file a prefix of what was written, and complete from the flush on |
| Interleaving.DestinationsAreWhole | src/io.rs:54-167 | Over all interleavings, failures and deletions, a file at a destination holds its initial contents or one committed output in full |
| Interleaving.LossIsDeletion | src/application.rs:50-54 | A file that was there at any point of a run is there at every later point, unless a step in between removed it |
| Interleaving.LastPublicationStands | src/io.rs:112-144 | Every destination behaves like a single register: at each point of each run it holds exactly what its last publication was given, nothing after a deletion, and its initial contents before either |
| Interleaving.StdoutIsWhole | src/io.rs:124-136 | Over all runs, standard output holds copies of different outputs one after another: whole ones for all that were committed to it, beginnings of others whose copying failed |
| Interleaving.TemporariesAreAccounted | src/io.rs:70-100 | No existing file is opened, truncated or removed under a temporary name, and new ones belong to unfinished outputs |
| Interleaving.NewTemporariesAreHeld | src/io.rs:54-110 | A temporary file that has come since any point of a run belongs to an output created since then and not yet gone |
| Interleaving.LeftoversAreFailedRemovals | src/io.rs:160-167 | Once all outputs are gone, a temporary file is left exactly where its removal failed |
| Interleaving.TemporariesAreUnique | src/io.rs:70-74 | Outputs of one run never share a temporary path |
| Clashes.FaithfulExactlyIfClashFree | src/io.rs:54-144 | All runs of a process, from its start and without restriction on names, publish and copy only what single outputs were given, if and only if no destination is the path of a temporary file for another |
| Clashes.MixUp | src/io.rs:138-140 | For every clash, a run from an empty state at whose end one output has delivered what another was given |
| TempNames.OneDestinationIsClashFree | src/io.rs:73 | A process that writes a single file never clashes, whatever the file is called |
| TempNames.TempNameInjective | src/io.rs:73 | Equal names come from equal stems, process ids and counter values |
| TempNames.TempPathSpelled | src/io.rs:54-73 | Directory and name of a temporary file for every kind of destination |
| TempNames.DecimalReadsBack | src/io.rs:73 | The numbers in it are decimal numerals without leading zeros |
| TempNames.StdioSpelled | src/io.rs:13-16 | Only a bare `-`, or `stdio` in upper or lower case, means standard input or output |
| Io.World.Perform | src/io.rs:54-167 | Every change to the file system is a step of the protocol and leaves all other outputs alone |
| Transactional.TransactionalOutput.New | src/io.rs:54-110 | Creates an empty file that did not exist, beside its destination or in the temporary directory for standard output, or fails without a trace; without a fault it fails only if all 100 names are taken |
| Transactional.CrowdedMeans | src/io.rs:70-110 | 100 names are tried |
| Io.RandomSource.Draw | src/crypto/session.rs:37-39 | Random bytes come from a source of which no byte is handed out twice |
| Transactional.TransactionalOutput.Commit | src/io.rs:112-144 | Publishes everything written and nothing else, at once for a file; a failure publishes nothing and leaves a temporary file only after a second one |
| Transactional.TransactionalOutput.Drop | src/io.rs:160-167 | Removes the temporary file of an uncommitted output and publishes nothing |
| KeypairGeneration.GenerateKeypair | src/application.rs:22-64 | Both files new on success, made from fresh bytes of the random source; both as before on an ordinary error; new public beside old private only under KeypairRollback; in every state passed through, (old, old), (new, old) or (new, new) with no file partly written; no other existing file touched; every output it created is dropped or committed, and after n failed operations at most n, and never more than three, new temporary files are left, each of one of its outputs; without a fault it fails only if 100 temporary names in a row were taken at the start |
| KeypairGeneration.KeyPathsSpelled | src/application.rs:19-20 | The two files of a pair and their names |
| KeypairGeneration.CommitPair | src/application.rs:48-62 | The public file is published first, and taken back if the private one cannot be |
| KeypairGeneration.RollBack | src/application.rs:50-54 | Restores the previous public file from its backup, or removes the new one if there was none |
| KeypairGeneration.BackUp | src/application.rs:38-47 | Stages the previous public file in full, or finds that there is none |
| KeypairGeneration.StandingAfterCommit | src/application.rs:48-62 | A commit moves the files from one permitted stage to another in every state passed through |
| Progress.PercentageBehaves | src/progress.rs:86-95 | The percentage never falls, never exceeds 100, and is 100 exactly when everything is processed |
| Progress.PercentageIsExact | src/progress.rs:86-95 | Neither the 128-bit product nor the 8-bit cast loses anything |
| Progress.ProgressWithoutShare | src/progress.rs:86-95 | What is reported without a total and for nothing to process |

## Left out

- The insides of AES-GCM, ChaCha20-Poly1305, RSA-OAEP, X25519, ML-KEM, HKDF and of PEM and ASN.1 decoding: uninterpreted functions with the laws above; no secrecy or unforgeability is claimed.
- Application.Encrypt: the destination must not be the path of a temporary file for another destination of the same process, without which the guarantee is false (`Clashes.FaithfulExactlyIfClashFree`); the same holds for Application.Decrypt.
- Interleaving.DestinationsAreWhole: a path is compared as it is spelled, so two spellings of one file (`x` and `./x`, links) count as two files.
- Transactional.TransactionalOutput.Commit: partial standard output after a failed final copy is allowed for, not prevented; a rename either happens or fails without effect, and durability of a synchronised file is taken for granted. A successful copy to standard output, made under the lock on it, is one step, so stopping in the middle of it is not among the states of the history.
- Transactional.TransactionalOutput.Write: how much of the writer's buffer reaches the file before the flush is left open instead of following the standard library's policy.
- Io.Input.Read: the input is the file as it was when opened, since no other process edits files during a run.
- KeypairGeneration.GenerateKeypair: creating the directory and generating the keys are single operations that may fail; rollback is about contents, not permissions.
- SessionSetup.PrepareEncryption: the library calls of one session setup fail at two points instead of at each call.
- Interleaving.TemporariesAreUnique: the shared counter does not wrap at 2^64.
- Progress.Meter.Advance: the 64-bit counter does not wrap; drawing, timing and terminal control are not modelled.
- The command line, passphrase prompting, default paths and `keypair_exists`: user interface and easy members.
- Overwriting secrets in memory and the wrappers in `src/crypto/kem.rs`: only the encapsulate and decapsulate contract is kept.
- Message texts of errors, and file modes.
