/** Choosing the key scheme and the cipher, from a public key when encrypting and from the header
    ids when decrypting. */
module Registry {
  import opened Common
  import opened Primitives
  import opened Pem
  import opened KeyEstablishment
  import opened FileFormat

  const KEY_ALGORITHMS: seq<KeyAlgorithm> := [Rsa, X25519, X25519MlKem768]
  const CIPHERS: seq<Cipher> := [Aes256Gcm, ChaCha20Poly1305]

  function SchemeId(algorithm: KeyAlgorithm): (r: U16) {
    match algorithm
    case Rsa => 1
    case X25519 => 2
    case X25519MlKem768 => 3
  }

  function CipherId(cipher: Cipher): (r: U16) {
    match cipher
    case Aes256Gcm => 1
    case ChaCha20Poly1305 => 2
  }

  function DefaultCipher(algorithm: KeyAlgorithm): (r: Cipher) {
    if algorithm == Rsa then Aes256Gcm else ChaCha20Poly1305
  }

  function Details(algorithm: KeyAlgorithm, cipher: Cipher): (r: AlgorithmDetails) {
    AlgorithmDetails(SchemeId(algorithm), CipherId(cipher))
  }

  datatype DecryptionMethod = LegacyMethod | VersionedMethod(algorithm: KeyAlgorithm, cipher: Cipher)

  function FindScheme(variants: seq<KeyAlgorithm>, id: U16): (r: Option<KeyAlgorithm>) {
    if variants == [] then None
    else if SchemeId(variants[0]) == id then Some(variants[0])
    else FindScheme(variants[1..], id)
  }

  function FindCipher(variants: seq<Cipher>, id: U16): (r: Option<Cipher>) {
    if variants == [] then None
    else if CipherId(variants[0]) == id then Some(variants[0])
    else FindCipher(variants[1..], id)
  }

  function MethodForDetails(details: AlgorithmDetails): (r: Result<DecryptionMethod>) {
    var algorithm := FindScheme(KEY_ALGORITHMS, details.keyEstablishment);
    var cipher := FindCipher(CIPHERS, details.dataCipher);
    if algorithm.None? || cipher.None?
    then Err(UnsupportedAlgorithms(details.keyEstablishment, details.dataCipher))
    else Ok(VersionedMethod(algorithm.value, cipher.value))
  }

  function MethodForHeader(header: FileHeader): (r: Result<DecryptionMethod>) {
    match header
    case Legacy => Ok(LegacyMethod)
    case Version1(h) => MethodForDetails(h.details)
  }

  /** Two PEM blocks form a hybrid key; any other multi-block file is rejected. */
  function KeyEstablishmentForPublicKey(suite: Suite, pem: Bytes): (r: Result<KeyAlgorithm>) {
    var blocks := |PemBlocks(pem)|;
    if blocks == 2 then Ok(X25519MlKem768)
    else if blocks > 2 then Err(InvalidPublicKey)
    else
      var key :- ParsePublicKey(suite, pem);
      match key.kind
      case RsaKind => Ok(Rsa)
      case X25519Kind => Ok(X25519)
      case _ => Err(UnsupportedPublicKeyAlgorithm)
  }

  /** The ids of a pair lead back to that pair and no other; unknown ids are reported as they are. */
  lemma DetailsSelectTheirMethod(details: AlgorithmDetails, algorithm: KeyAlgorithm, cipher: Cipher)
    ensures MethodForDetails(details) == Ok(VersionedMethod(algorithm, cipher)) <==>
      details == Details(algorithm, cipher)
    ensures MethodForDetails(details).Err? <==> forall a, c :: details != Details(a, c)
    ensures MethodForDetails(details).Err? ==>
      MethodForDetails(details).error == UnsupportedAlgorithms(details.keyEstablishment, details.dataCipher)
  {
    FindSchemeSearches(KEY_ALGORITHMS, details.keyEstablishment);
    FindCipherSearches(CIPHERS, details.dataCipher);
    var a, c := FindScheme(KEY_ALGORITHMS, details.keyEstablishment), FindCipher(CIPHERS, details.dataCipher);
    if a.Some? && c.Some? {
      assert details == Details(a.value, c.value);
    }
    forall a, c
      ensures a in KEY_ALGORITHMS && c in CIPHERS
    {
      AllVariantsAreListed(a, c);
    }
    AllVariantsAreListed(algorithm, cipher);
  }

  /** The numbers in use: 1 to 3 for the key schemes, 1 and 2 for the ciphers. */
  lemma MethodsByNumber(details: AlgorithmDetails)
    ensures MethodForDetails(details) ==
      if 1 <= details.keyEstablishment <= 3 && 1 <= details.dataCipher <= 2
      then Ok(VersionedMethod(
        match details.keyEstablishment { case 1 => Rsa case 2 => X25519 case _ => X25519MlKem768 },
        match details.dataCipher { case 1 => Aes256Gcm case _ => ChaCha20Poly1305 }))
      else Err(UnsupportedAlgorithms(details.keyEstablishment, details.dataCipher))
  {
    DetailsSelectTheirMethod(details, Rsa, Aes256Gcm);
    DetailsSelectTheirMethod(details, Rsa, ChaCha20Poly1305);
    DetailsSelectTheirMethod(details, X25519, Aes256Gcm);
    DetailsSelectTheirMethod(details, X25519, ChaCha20Poly1305);
    DetailsSelectTheirMethod(details, X25519MlKem768, Aes256Gcm);
    DetailsSelectTheirMethod(details, X25519MlKem768, ChaCha20Poly1305);
  }

  lemma {:induction false} FindSchemeSearches(variants: seq<KeyAlgorithm>, id: U16)
    ensures match FindScheme(variants, id)
            case Some(a) => a in variants && SchemeId(a) == id
            case None => forall a :: a in variants ==> SchemeId(a) != id
  {
    if variants != [] {
      FindSchemeSearches(variants[1..], id);
    }
  }

  lemma {:induction false} FindCipherSearches(variants: seq<Cipher>, id: U16)
    ensures match FindCipher(variants, id)
            case Some(c) => c in variants && CipherId(c) == id
            case None => forall c :: c in variants ==> CipherId(c) != id
  {
    if variants != [] {
      FindCipherSearches(variants[1..], id);
    }
  }

  lemma AllVariantsAreListed(algorithm: KeyAlgorithm, cipher: Cipher)
    ensures algorithm in KEY_ALGORITHMS && cipher in CIPHERS
  {
    assert KEY_ALGORITHMS[0] == Rsa && KEY_ALGORITHMS[1] == X25519 && KEY_ALGORITHMS[2] == X25519MlKem768;
    assert CIPHERS[0] == Aes256Gcm && CIPHERS[1] == ChaCha20Poly1305;
  }

  /** The scheme chosen for a key file is one whose own checks of the block count, and for the
      single-key schemes of the key type, accept that file; and every such file is so chosen. Two
      blocks are accepted in the end exactly when they hold the right kinds of key in order. */
  lemma DispatchAgreesWithLoading(suite: Suite, pem: Bytes, random: Randomness)
    ensures KeyEstablishmentForPublicKey(suite, pem) == Ok(Rsa) <==> LoadPublicKey(suite, pem, RsaKind).Ok?
    ensures KeyEstablishmentForPublicKey(suite, pem) == Ok(X25519) <==> LoadPublicKey(suite, pem, X25519Kind).Ok?
    ensures KeyEstablishmentForPublicKey(suite, pem) == Ok(X25519MlKem768) <==> |PemBlocks(pem)| == 2
    ensures IsHybridPublicFile(suite, pem) <==>
      |PemBlocks(pem)| == 2
        && HybridEncapsulate(suite, pem, random) !in {Err(InvalidPublicKey), Err(UnsupportedPublicKeyAlgorithm)}
  {
    hide PemBlocks, DeriveHybridDataKey;
  }

  /** What a single-key loader answers, and with which error it refuses. */
  lemma LoaderDecides(suite: Suite, pem: Bytes, kind: KeyKind)
    ensures LoadPublicKey(suite, pem, kind) ==
      if |PemBlocks(pem)| >= 2 || suite.parsePublic(pem).None? then Err(InvalidPublicKey)
      else if suite.parsePublic(pem).value.kind == kind then Ok(suite.parsePublic(pem).value)
      else Err(UnsupportedPublicKeyAlgorithm)
  {
    hide PemBlocks;
  }

  /** A file of one block is dispatched by the type of its key, whatever line end it has; anything else
      after the block makes it another file. */
  lemma LineEndKeepsScheme(suite: Suite, block: Bytes, tail: Bytes)
    requires Closed(block)
    ensures if forall i :: 0 <= i < |tail| ==> tail[i] in {9, 10, 12, 13, 32}
            then KeyEstablishmentForPublicKey(suite, block + tail)
              == match suite.parsePublic(block + tail)
                 case None => Err(InvalidPublicKey)
                 case Some(key) =>
                   match key.kind
                   case RsaKind => Ok(Rsa)
                   case X25519Kind => Ok(X25519)
                   case _ => Err(UnsupportedPublicKeyAlgorithm)
            else KeyEstablishmentForPublicKey(suite, block + tail) in {Ok(X25519MlKem768), Err(InvalidPublicKey)}
  {
    hide PemBlocks, BlockEnd;
    TailIsDropped(block, tail);
  }

  /** Two blocks, an ML-KEM-768 key and then an X25519 key. */
  predicate IsHybridPublicFile(suite: Suite, pem: Bytes) {
    var blocks := PemBlocks(pem);
    && |blocks| == 2
    && suite.parsePublic(blocks[0]).Some? && suite.parsePublic(blocks[0]).value.kind == MlKem768Kind
    && suite.parsePublic(blocks[1]).Some? && suite.parsePublic(blocks[1]).value.kind == X25519Kind
  }
}
