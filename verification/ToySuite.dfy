/** A concrete suite that satisfies every assumed law, so the laws do not contradict each other. It
    offers no security at all: a key is one byte repeated, and keys are wrapped by copying. */
module ToySuite {
  import opened Common
  import opened Primitives
  import opened Pem
  import opened KeyEstablishment
  import opened Laws
  import opened KeyAgreement
  import Session

  function RawSize(kind: KeyKind): (r: nat) {
    if kind == MlKem768Kind then ML_KEM_PUBLIC_KEY_SIZE else X25519_PUBLIC_KEY_SIZE
  }

  function Repeat(b: byte, n: nat): (r: Bytes)
    ensures |r| == n
  {
    seq(n, i => b)
  }

  /** The first `n` bytes, padded with zeros. */
  function Fit(s: Bytes, n: nat): (r: Bytes)
    ensures |r| == n
  {
    seq(n, i requires 0 <= i => if i < |s| then s[i] else 0)
  }

  function First(s: Bytes): (r: byte) {
    if s == [] then 0 else s[0]
  }

  function KindLetter(kind: KeyKind): (r: byte)
    ensures r != 45 && r != 10
  {
    match kind
    case RsaKind => 82
    case X25519Kind => 88
    case MlKem768Kind => 77
    case OtherKind => 79
  }

  function LetterKind(b: byte): (r: KeyKind) {
    if b == 82 then RsaKind else if b == 88 then X25519Kind else if b == 77 then MlKem768Kind else OtherKind
  }

  // "K-----": what stands between the end marker and the line feed.
  const LABEL: Bytes := [75, 45, 45, 45, 45, 45]

  /** Kind, key byte as two letters, and the mark of an encrypted key. */
  function Body(kind: KeyKind, b: byte, encrypted: bool): (r: Bytes)
    ensures 45 !in r
  {
    [KindLetter(kind), 65 + b / 16, 65 + b % 16] + if encrypted then ENCRYPTED else []
  }

  function Text(kind: KeyKind, b: byte, encrypted: bool): (r: Bytes) {
    Body(kind, b, encrypted) + END + LABEL + NEWLINE
  }

  /** Reads kind and key byte after at most one line feed. */
  function Parse(text: Bytes): (r: Option<(KeyKind, byte)>) {
    var s := if text != [] && text[0] == 10 then text[1..] else text;
    if |s| < 3 || !(65 <= s[1] < 81) || !(65 <= s[2] < 81) then None
    else Some((LetterKind(s[0]), (s[1] - 65) as int * 16 + (s[2] - 65)))
  }

  function Toy(): (r: Suite) {
    Suite(
      (kind, seed: Bytes) => PrivateKey(kind, Repeat(First(seed), RawSize(kind))),
      (key: PrivateKey) => PublicKey(key.kind, key.secret),
      (key: PublicKey) => Text(key.kind, First(key.raw), false),
      text => match Parse(text) {
        case Some(k) => Some(PublicKey(k.0, Repeat(k.1, RawSize(k.0))))
        case None => None
      },
      (key: PrivateKey, passphrase: Option<Bytes>) => Text(key.kind, First(key.secret), passphrase.Some?),
      (text, passphrase: Option<Bytes>) => match Parse(text) {
        case Some(k) => Some(PrivateKey(k.0, Repeat(k.1, RawSize(k.0))))
        case None => None
      },
      (own: PrivateKey, peer: PublicKey) =>
        Repeat((First(own.secret) + First(peer.raw)) as int % 256, SHARED_SECRET_SIZE),
      (key: PublicKey, coins) => Fit(coins, ML_KEM_CIPHERTEXT_SIZE),
      (key: PublicKey, coins) => Fit(coins, ML_KEM_CIPHERTEXT_SIZE)[..SHARED_SECRET_SIZE],
      (key: PrivateKey, ciphertext) => Fit(ciphertext, SHARED_SECRET_SIZE),
      (key: PrivateKey) => DATA_KEY_SIZE,
      (key: PublicKey, message, coins: Bytes) => Fit(message, DATA_KEY_SIZE),
      (key: PrivateKey, wrapped) => Some(wrapped),
      (key: PublicKey, message, coins: Bytes) => Fit(message, DATA_KEY_SIZE),
      (key: PrivateKey, wrapped) => Some(wrapped),
      (salt: Bytes, secret: Bytes, info: Bytes) => Fit(secret + info, DATA_KEY_SIZE),
      (context: CipherContext, position: nat) => (First(context.dataKey) as int + position) % 256,
      (context: CipherContext, aad: Bytes, ciphertext: Bytes) => Fit(aad + ciphertext, TAG_SIZE),
      (cipher: Cipher) => 1)
  }

  lemma TextBlockEnd(kind: KeyKind, b: byte, encrypted: bool)
    ensures var body := Body(kind, b, encrypted);
            && BlockEnd(Text(kind, b, encrypted)) == Some(|body| + |END| + |LABEL|)
            && IsKeyFile(Text(kind, b, encrypted))
            && BlockOf(Text(kind, b, encrypted)) == body + END + LABEL
  {
    hide BlockEnd, Body;
    var body := Body(kind, b, encrypted);
    var text := Text(kind, b, encrypted);
    var start, close := |body|, |body| + |END| + 1;
    forall j | 0 <= j < start
      ensures !OccursAt(text, END, j)
    {
      assert text[j] == body[j] != 45;
      if OccursAt(text, END, j) {
        OccurrenceHead(text, END, j);
      }
    }
    assert text[start..start + |END|] == END;
    assert text[start + |END|] == 75;
    if OccursAt(text, DASHES, start + |END|) {
      OccurrenceHead(text, DASHES, start + |END|);
    }
    assert text[close..close + |DASHES|] == DASHES;
    BlockEndMeans(text, start, close, |body| + |END| + |LABEL|);
    assert text[|body| + |END| + |LABEL|..] == NEWLINE;
    assert text[..|body| + |END| + |LABEL|] == body + END + LABEL;
  }

  lemma ParseOfText(kind: KeyKind, b: byte, encrypted: bool, rest: Bytes)
    ensures Parse(Body(kind, b, encrypted) + rest) == Some((kind, b))
    ensures Parse(NEWLINE + (Body(kind, b, encrypted) + rest)) == Some((kind, b))
  {
    var s := Body(kind, b, encrypted) + rest;
    assert (NEWLINE + s)[1..] == s;
    assert s[0] == KindLetter(kind) && s[1] == 65 + b / 16 && s[2] == 65 + b % 16;
  }

  lemma TextIsMarked(kind: KeyKind, b: byte)
    ensures IsEncryptedPem(Text(kind, b, true))
  {
    var text := Text(kind, b, true);
    assert text[3..12] == ENCRYPTED;
    assert OccursAt(text, ENCRYPTED, 3);
    FindIsFirst(text, ENCRYPTED, 0);
  }

  lemma TextReads(kind: KeyKind, b: byte, encrypted: bool)
    ensures var text := Text(kind, b, encrypted);
            && IsKeyFile(text)
            && Parse(text) == Parse(BlockOf(text)) == Parse(NEWLINE + BlockOf(text)) == Some((kind, b))
  {
    hide BlockEnd, Body, Parse;
    TextBlockEnd(kind, b, encrypted);
    var body := Body(kind, b, encrypted);
    ParseOfText(kind, b, encrypted, END + LABEL);
    ParseOfText(kind, b, encrypted, END + LABEL + NEWLINE);
    assert body + END + LABEL == body + (END + LABEL);
    assert Text(kind, b, encrypted) == body + (END + LABEL + NEWLINE);
  }

  lemma FirstOfRepeat(b: byte, n: nat)
    requires n > 0
    ensures First(Repeat(b, n)) == b
  {
  }

  lemma ToyFileLaws(kind: KeyKind, seed: Bytes, passphrase: Option<Bytes>, given: Option<Bytes>)
    ensures PublicFileLaw(Toy(), Toy().publicOf(Toy().generate(kind, seed)))
    ensures PrivateFileLaw(Toy(), Toy().generate(kind, seed), passphrase, given)
  {
    hide BlockEnd, Parse, Text, IsEncryptedPem, IsKeyFile;
    FirstOfRepeat(First(seed), RawSize(kind));
    TextReads(kind, First(seed), false);
    TextReads(kind, First(seed), true);
    TextIsMarked(kind, First(seed));
  }

  lemma ToySecretLaws(a: Bytes, b: Bytes, message: Bytes)
    ensures AgreementLaw(Toy(), a, b)
    ensures KemLaw(Toy(), a, b)
    ensures |message| == DATA_KEY_SIZE ==> RsaLaw(Toy(), a, message, b)
  {
    FirstOfRepeat(First(a), X25519_PUBLIC_KEY_SIZE);
    FirstOfRepeat(First(b), X25519_PUBLIC_KEY_SIZE);
    var ciphertext := Fit(b, ML_KEM_CIPHERTEXT_SIZE);
    assert Fit(ciphertext, SHARED_SECRET_SIZE) == ciphertext[..SHARED_SECRET_SIZE];
    if |message| == DATA_KEY_SIZE {
      assert Fit(message, DATA_KEY_SIZE) == message;
    }
  }

  lemma ToyKeyAndCipherLaws()
    ensures KeyLaws(Toy()) && CipherLaws(Toy())
  {
    forall salt: Bytes, secret: Bytes, info: Bytes
      ensures |Toy().hkdf(salt, secret, info)| == DATA_KEY_SIZE
    {
    }
  }

  /** The assumed laws are satisfiable. */
  lemma ToyIsLawful()
    ensures Lawful(Toy())
  {
    hide Toy, PublicFileLaw, PrivateFileLaw, AgreementLaw, KemLaw, RsaLaw;
    ToyKeyAndCipherLaws();
    forall kind, seed
      ensures PublicFileLaw(Toy(), Toy().publicOf(Toy().generate(kind, seed)))
    {
      ToyFileLaws(kind, seed, None, None);
    }
    forall kind, seed, passphrase, given
      ensures PrivateFileLaw(Toy(), Toy().generate(kind, seed), passphrase, given)
    {
      ToyFileLaws(kind, seed, passphrase, given);
    }
    forall a, b
      ensures AgreementLaw(Toy(), a, b) && KemLaw(Toy(), a, b)
    {
      ToySecretLaws(a, b, []);
    }
    forall seed, message, coins
      ensures |message| == DATA_KEY_SIZE ==> RsaLaw(Toy(), seed, message, coins)
    {
      ToySecretLaws(seed, coins, message);
    }
  }

  /** A key file that is not encrypted and loads without a passphrase, but is prompted for, because
      the letters of the mark follow its end line. */
  lemma UnencryptedKeyIsPrompted(error: Error)
    ensures var pem := Text(RsaKind, 0, false) + ENCRYPTED;
            && LoadPrivateKey(Toy(), pem, None, RsaKind).Ok?
            && Session.RequestPassphrase(pem, Err(error)) == Err(error)
  {
    hide Body, BlockEnd;
    var text := Text(RsaKind, 0, false);
    assert OccursAt(text + ENCRYPTED, ENCRYPTED, |text|);
    FindIsBounded(text + ENCRYPTED, ENCRYPTED, |text|);
    ParseOfText(RsaKind, 0, false, END + LABEL + NEWLINE + ENCRYPTED);
    assert text + ENCRYPTED == Body(RsaKind, 0, false) + (END + LABEL + NEWLINE + ENCRYPTED);
  }

  lemma ZeroSecretExactly(x25519Seed: Bytes, random: Randomness)
    ensures AllZero(EphemeralSecret(Toy(), x25519Seed, random))
        <==> (First(x25519Seed) + First(random.ephemeralSeed)) as int % 256 == 0
  {
    FirstOfRepeat(First(x25519Seed), X25519_PUBLIC_KEY_SIZE);
    FirstOfRepeat(First(random.ephemeralSeed), X25519_PUBLIC_KEY_SIZE);
    var secret := EphemeralSecret(Toy(), x25519Seed, random);
    assert secret == Repeat((First(x25519Seed) + First(random.ephemeralSeed)) as int % 256, SHARED_SECRET_SIZE);
    assert secret[0] == (First(x25519Seed) + First(random.ephemeralSeed)) as int % 256;
  }

  /** An encryption to a generated pair that is refused because the shared secret is all zero. */
  lemma ZeroSecretIsRefused(algorithm: KeyAlgorithm, seed: Bytes, choice: Option<Cipher>, random: Randomness,
                            plaintext: Bytes)
    requires algorithm != Rsa && WellSized(random) && First(random.ephemeralSeed) == 0
    ensures var keys := GenerateKeyPair(Toy(), algorithm, seed, [0], None);
            Session.SealFile(Toy(), keys.publicKeyPem, choice, random, plaintext) == Err(AuthenticationFailed)
  {
    hide Toy, Lawful, EphemeralSecret, AllZero, GenerateKeyPair, Session.SealFile, Session.OpenFile;
    ToyIsLawful();
    ZeroSecretExactly([0], random);
    Session.RoundTrip(Toy(), algorithm, seed, [0], None, Ok([]), choice, random, plaintext);
  }
}
