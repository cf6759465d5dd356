/** The framing in front of the ciphertext, as functions on byte strings. */
module FileFormat {
  import opened Common

  type U16 = x: int | 0 <= x < 0x1_0000

  const PREAMBLE_SIZE: nat := 13
  const LEGACY_VERSION: U16 := 0
  const CURRENT_VERSION: U16 := 1
  // Four zero bytes, "MUENC" in ASCII, two zero bytes.
  const MAGIC_PREFIX: Bytes := [0, 0, 0, 0, 77, 85, 69, 78, 67, 0, 0]
  const LEGACY_NONCE_SIZE: nat := 16
  const LEGACY_TAG_SIZE: nat := 16
  const VERSIONED_METADATA_SIZE: nat := 12
  const MAX_KEY_MATERIAL_SIZE: nat := 16 * 1024 * 1024
  const MAX_NONCE_SIZE: nat := 64
  const MAX_TAG_SIZE: nat := 64

  datatype AlgorithmDetails = AlgorithmDetails(keyEstablishment: U16, dataCipher: U16)

  datatype VersionedHeader = VersionedHeader(
    details: AlgorithmDetails,
    keyMaterial: Bytes,
    nonce: Bytes,
    tagSize: nat,
    authenticatedBytes: Bytes)

  datatype FileHeader = Legacy | Version1(header: VersionedHeader) {
    function Versioned(nonceSize: nat, tagSize: nat): (r: Result<VersionedHeader>) {
      if Legacy? then Err(InvalidFormat(VersionOneRequired))
      else if |header.nonce| != nonceSize || header.tagSize != tagSize then Err(InvalidFormat(MethodSizes))
      else Ok(header)
    }
  }

  function Preamble(version: U16): (r: Bytes)
    ensures |r| == PREAMBLE_SIZE
  {
    MAGIC_PREFIX + U16ToBytes(version)
  }

  function Metadata(details: AlgorithmDetails, keyMaterialLen: nat, nonceLen: nat, tagSize: nat): (r: Bytes)
    ensures |r| == VERSIONED_METADATA_SIZE
  {
    U16ToBytes(details.keyEstablishment) + U16ToBytes(details.dataCipher)
    + U32ToBytes(keyMaterialLen) + U16ToBytes(nonceLen) + U16ToBytes(tagSize)
  }

  function EncodeVersionedHeader(details: AlgorithmDetails, keyMaterial: Bytes, nonce: Bytes, tagSize: nat): (r: Bytes)
    ensures |r| == PREAMBLE_SIZE + VERSIONED_METADATA_SIZE + |keyMaterial| + |nonce|
  {
    Preamble(CURRENT_VERSION) + Metadata(details, |keyMaterial|, |nonce|, tagSize) + keyMaterial + nonce
  }

  function ValidateLengths(keyMaterialLen: nat, nonceLen: nat, tagSize: nat): (r: Result<()>)
    ensures r.Ok? <==>
      1 <= keyMaterialLen <= MAX_KEY_MATERIAL_SIZE && 1 <= nonceLen <= MAX_NONCE_SIZE && 1 <= tagSize <= MAX_TAG_SIZE
  {
    if keyMaterialLen == 0 || keyMaterialLen > MAX_KEY_MATERIAL_SIZE then Err(InvalidFormat(KeyMaterialLength))
    else if nonceLen == 0 || nonceLen > MAX_NONCE_SIZE then Err(InvalidFormat(NonceLength))
    else if tagSize == 0 || tagSize > MAX_TAG_SIZE then Err(InvalidFormat(TagLength))
    else Ok(())
  }

  /** The four fields of the metadata block. */
  datatype Lengths = Lengths(details: AlgorithmDetails, keyMaterialLen: nat, nonceLen: nat, tagSize: nat)

  function ReadMetadata(metadata: Bytes): (r: Lengths)
    requires |metadata| == VERSIONED_METADATA_SIZE
  {
    Lengths(
      AlgorithmDetails(BytesToU16(metadata[0..2]), BytesToU16(metadata[2..4])),
      BytesToU32(metadata[4..8]),
      BytesToU16(metadata[8..10]),
      BytesToU16(metadata[10..12]))
  }

  /** A header together with the number of input bytes it took up. */
  datatype Parsed = Parsed(header: FileHeader, size: nat)

  function ParseHeader(s: Bytes): (r: Result<Parsed>)
    ensures r.Ok? ==> r.value.size <= |s|
  {
    if |s| < PREAMBLE_SIZE then Err(InvalidFormat(IncompletePreamble))
    else if s[..|MAGIC_PREFIX|] != MAGIC_PREFIX then Err(InvalidFormat(WrongMagic))
    else
      var version := BytesToU16(s[|MAGIC_PREFIX|..PREAMBLE_SIZE]);
      if version == LEGACY_VERSION then Ok(Parsed(Legacy, PREAMBLE_SIZE))
      else if version == CURRENT_VERSION then
        var header :- ParseVersionedHeader(s[PREAMBLE_SIZE..]);
        Ok(Parsed(Version1(header), PREAMBLE_SIZE + VersionedSize(header)))
      else Err(InvalidFormat(UnsupportedVersion(version)))
  }

  function VersionedSize(header: VersionedHeader): nat {
    VERSIONED_METADATA_SIZE + |header.keyMaterial| + |header.nonce|
  }

  /** What follows the preamble. The authenticated bytes begin with a rebuilt preamble. */
  function ParseVersionedHeader(s: Bytes): (r: Result<VersionedHeader>)
    ensures r.Ok? ==> VersionedSize(r.value) <= |s|
  {
    if |s| < VERSIONED_METADATA_SIZE then Err(InvalidFormat(IncompleteVersionedHeader))
    else
      var metadata := s[..VERSIONED_METADATA_SIZE];
      var fields := ReadMetadata(metadata);
      var _ :- ValidateLengths(fields.keyMaterialLen, fields.nonceLen, fields.tagSize);
      var nonceAt := VERSIONED_METADATA_SIZE + fields.keyMaterialLen;
      if |s| < nonceAt then Err(InvalidFormat(IncompleteKeyMaterial))
      else if |s| < nonceAt + fields.nonceLen then Err(InvalidFormat(IncompleteNonce))
      else
        var keyMaterial := s[VERSIONED_METADATA_SIZE..nonceAt];
        var nonce := s[nonceAt..nonceAt + fields.nonceLen];
        Ok(VersionedHeader(fields.details, keyMaterial, nonce, fields.tagSize,
                           Preamble(CURRENT_VERSION) + metadata + keyMaterial + nonce))
  }

  /** Where the four fields of the metadata block stand. */
  lemma MetadataFields(details: AlgorithmDetails, keyMaterialLen: nat, nonceLen: nat, tagSize: nat)
    ensures var m := Metadata(details, keyMaterialLen, nonceLen, tagSize);
            && m[0..2] == U16ToBytes(details.keyEstablishment) && m[2..4] == U16ToBytes(details.dataCipher)
            && m[4..8] == U32ToBytes(keyMaterialLen)
            && m[8..10] == U16ToBytes(nonceLen) && m[10..12] == U16ToBytes(tagSize)
  {
    hide U16ToBytes, U32ToBytes;
  }

  lemma ReadOfMetadata(details: AlgorithmDetails, keyMaterialLen: nat, nonceLen: nat, tagSize: nat)
    ensures ReadMetadata(Metadata(details, keyMaterialLen, nonceLen, tagSize))
         == Lengths(details, keyMaterialLen % 0x1_0000_0000, nonceLen % 0x1_0000, tagSize % 0x1_0000)
  {
    hide U16ToBytes, U32ToBytes, BytesToU16, BytesToU32, Metadata;
    var m := Metadata(details, keyMaterialLen, nonceLen, tagSize);
    MetadataFields(details, keyMaterialLen, nonceLen, tagSize);
    U16RoundTrip(details.keyEstablishment, m[0..2]);
    U16RoundTrip(details.dataCipher, m[2..4]);
    U32RoundTrip(keyMaterialLen, m[4..8]);
    U16RoundTrip(nonceLen, m[8..10]);
    U16RoundTrip(tagSize, m[10..12]);
    Narrowed(details.keyEstablishment, 0x1_0000);
    Narrowed(details.dataCipher, 0x1_0000);
  }

  lemma MetadataOfRead(m: Bytes)
    requires |m| == VERSIONED_METADATA_SIZE
    ensures var f := ReadMetadata(m); Metadata(f.details, f.keyMaterialLen, f.nonceLen, f.tagSize) == m
  {
    hide U16ToBytes, U32ToBytes, BytesToU16, BytesToU32;
    U16RoundTrip(0, m[0..2]);
    U16RoundTrip(0, m[2..4]);
    U32RoundTrip(0, m[4..8]);
    U16RoundTrip(0, m[8..10]);
    U16RoundTrip(0, m[10..12]);
    assert m == m[0..2] + m[2..4] + m[4..8] + m[8..10] + m[10..12];
  }

  lemma MetadataLayout(details: AlgorithmDetails, keyMaterialLen: nat, nonceLen: nat, tagSize: nat)
    ensures var m := Metadata(details, keyMaterialLen, nonceLen, tagSize);
            && m[0] as int * 256 + m[1] == details.keyEstablishment
            && m[2] as int * 256 + m[3] == details.dataCipher
            && ((m[4] as int * 256 + m[5]) * 256 + m[6]) * 256 + m[7] == keyMaterialLen % 0x1_0000_0000
            && m[8] as int * 256 + m[9] == nonceLen % 0x1_0000
            && m[10] as int * 256 + m[11] == tagSize % 0x1_0000
  {
    hide U16ToBytes, U32ToBytes, Metadata;
    MetadataFields(details, keyMaterialLen, nonceLen, tagSize);
    U16Bytes(details.keyEstablishment);
    U16Bytes(details.dataCipher);
    U32Bytes(keyMaterialLen);
    U16Bytes(nonceLen);
    U16Bytes(tagSize);
    Narrowed(details.keyEstablishment, 0x1_0000);
    Narrowed(details.dataCipher, 0x1_0000);
  }

  lemma HeaderParts(details: AlgorithmDetails, keyMaterial: Bytes, nonce: Bytes, tagSize: nat)
    ensures var e := EncodeVersionedHeader(details, keyMaterial, nonce, tagSize);
            && e[..13] == Preamble(CURRENT_VERSION) && e[13..25] == Metadata(details, |keyMaterial|, |nonce|, tagSize)
            && e[25..25 + |keyMaterial|] == keyMaterial && e[25 + |keyMaterial|..] == nonce
  {
    hide Preamble, Metadata;
  }

  lemma PreambleLayout()
    ensures var p := Preamble(CURRENT_VERSION);
            p[..11] == [0, 0, 0, 0, 77, 85, 69, 78, 67, 0, 0] && p[11] == 0 && p[12] == 1
  {
  }

  /** The header byte by byte: magic, version, scheme, cipher, three lengths, key material, nonce. */
  lemma HeaderLayout(details: AlgorithmDetails, keyMaterial: Bytes, nonce: Bytes, tagSize: nat)
    ensures var e := EncodeVersionedHeader(details, keyMaterial, nonce, tagSize);
            && |e| == 25 + |keyMaterial| + |nonce|
            && e[..11] == [0, 0, 0, 0, 77, 85, 69, 78, 67, 0, 0]
            && e[11] == 0 && e[12] == 1
            && e[13] as int * 256 + e[14] == details.keyEstablishment
            && e[15] as int * 256 + e[16] == details.dataCipher
            && ((e[17] as int * 256 + e[18]) * 256 + e[19]) * 256 + e[20] == |keyMaterial| % 0x1_0000_0000
            && e[21] as int * 256 + e[22] == |nonce| % 0x1_0000
            && e[23] as int * 256 + e[24] == tagSize % 0x1_0000
            && e[25..25 + |keyMaterial|] == keyMaterial && e[25 + |keyMaterial|..] == nonce
  {
    hide Preamble, Metadata, EncodeVersionedHeader;
    var e := EncodeVersionedHeader(details, keyMaterial, nonce, tagSize);
    HeaderParts(details, keyMaterial, nonce, tagSize);
    PreambleLayout();
    MetadataLayout(details, |keyMaterial|, |nonce|, tagSize);
    SliceOfSlice(e[..13], 0, 0, 11);
    assert e[..11] == e[..13][..11] && e[11] == e[..13][11] && e[12] == e[..13][12];
    forall i | 13 <= i < 25
      ensures e[i] == e[13..25][i - 13]
    {
    }
  }

  lemma U16Bytes(x: nat)
    ensures var s := U16ToBytes(x); s[0] as int * 256 + s[1] == x % 0x1_0000
  {
    SplitDigit(x % 0x1_0000);
  }

  lemma U32Bytes(x: nat)
    ensures var s := U32ToBytes(x); ((s[0] as int * 256 + s[1]) * 256 + s[2]) * 256 + s[3] == x % 0x1_0000_0000
  {
    U32Digits(x % 0x1_0000_0000);
  }

  predicate InRange(keyMaterialLen: nat, nonceLen: nat, tagSize: nat) {
    ValidateLengths(keyMaterialLen, nonceLen, tagSize).Ok?
  }

  lemma ParseVersionedOfEncode(details: AlgorithmDetails, keyMaterial: Bytes, nonce: Bytes, tagSize: nat, rest: Bytes)
    requires InRange(|keyMaterial|, |nonce|, tagSize)
    ensures ParseVersionedHeader(Metadata(details, |keyMaterial|, |nonce|, tagSize) + keyMaterial + nonce + rest)
         == Ok(VersionedHeader(details, keyMaterial, nonce, tagSize,
                               EncodeVersionedHeader(details, keyMaterial, nonce, tagSize)))
  {
    hide Metadata, ReadMetadata, Preamble;
    var metadata := Metadata(details, |keyMaterial|, |nonce|, tagSize);
    var s := metadata + keyMaterial + nonce + rest;
    ReadOfMetadata(details, |keyMaterial|, |nonce|, tagSize);
    assert s[..VERSIONED_METADATA_SIZE] == metadata;
    var nonceAt := VERSIONED_METADATA_SIZE + |keyMaterial|;
    assert s[VERSIONED_METADATA_SIZE..nonceAt] == keyMaterial;
    assert s[nonceAt..nonceAt + |nonce|] == nonce;
  }

  predicate ParsesBack(details: AlgorithmDetails, keyMaterial: Bytes, nonce: Bytes, tagSize: nat, rest: Bytes) {
    var encoded := EncodeVersionedHeader(details, keyMaterial, nonce, tagSize);
    var header := VersionedHeader(details, keyMaterial, nonce, tagSize, encoded);
    ParseHeader(encoded + rest) == Ok(Parsed(Version1(header), |encoded|))
  }

  /** Printing then parsing gives the header back, and takes up exactly the printed bytes, if and
      only if the lengths are in range: the printer narrows its lengths, and the parser checks them. */
  lemma ParseOfEncode(details: AlgorithmDetails, keyMaterial: Bytes, nonce: Bytes, tagSize: nat, rest: Bytes)
    ensures ParsesBack(details, keyMaterial, nonce, tagSize, rest) <==> InRange(|keyMaterial|, |nonce|, tagSize)
  {
    hide Metadata;
    var encoded := EncodeVersionedHeader(details, keyMaterial, nonce, tagSize);
    var s := encoded + rest;
    if InRange(|keyMaterial|, |nonce|, tagSize) {
      assert s[..|MAGIC_PREFIX|] == MAGIC_PREFIX;
      assert s[|MAGIC_PREFIX|..PREAMBLE_SIZE] == U16ToBytes(CURRENT_VERSION);
      assert s[PREAMBLE_SIZE..] == Metadata(details, |keyMaterial|, |nonce|, tagSize) + keyMaterial + nonce + rest;
      ParseVersionedOfEncode(details, keyMaterial, nonce, tagSize, rest);
    } else if ParseHeader(s).Ok? && ParseHeader(s).value.header.Version1? {
      EncodeOfParse(s);
    }
  }

  lemma EncodeOfParseVersioned(s: Bytes)
    requires ParseVersionedHeader(s).Ok?
    ensures var h := ParseVersionedHeader(s).value;
            && InRange(|h.keyMaterial|, |h.nonce|, h.tagSize)
            && h.authenticatedBytes == EncodeVersionedHeader(h.details, h.keyMaterial, h.nonce, h.tagSize)
            && h.authenticatedBytes == Preamble(CURRENT_VERSION) + s[..VersionedSize(h)]
  {
    hide Metadata, ReadMetadata, Preamble;
    var h := ParseVersionedHeader(s).value;
    var metadata := s[..VERSIONED_METADATA_SIZE];
    MetadataOfRead(metadata);
    assert s[..VersionedSize(h)] == metadata + h.keyMaterial + h.nonce;
    ConcatAssociative(Preamble(CURRENT_VERSION), metadata + h.keyMaterial, h.nonce);
    ConcatAssociative(Preamble(CURRENT_VERSION), metadata, h.keyMaterial);
  }

  /** Every accepted version-1 input begins with the printed form of the result, and the rebuilt
      authenticated bytes are exactly the bytes taken from the input. */
  lemma EncodeOfParse(s: Bytes)
    requires ParseHeader(s).Ok? && ParseHeader(s).value.header.Version1?
    ensures var Parsed(header, size) := ParseHeader(s).value;
            var h := header.header;
            && InRange(|h.keyMaterial|, |h.nonce|, h.tagSize)
            && s[..size] == EncodeVersionedHeader(h.details, h.keyMaterial, h.nonce, h.tagSize)
            && h.authenticatedBytes == s[..size]
  {
    hide ParseVersionedHeader, EncodeVersionedHeader;
    var rest := s[PREAMBLE_SIZE..];
    EncodeOfParseVersioned(rest);
    var h := ParseVersionedHeader(rest).value;
    U16RoundTrip(0, s[|MAGIC_PREFIX|..PREAMBLE_SIZE]);
    assert s[..PREAMBLE_SIZE] == s[..|MAGIC_PREFIX|] + s[|MAGIC_PREFIX|..PREAMBLE_SIZE] == Preamble(CURRENT_VERSION);
    assert s[..PREAMBLE_SIZE + VersionedSize(h)] == s[..PREAMBLE_SIZE] + rest[..VersionedSize(h)];
  }

  /** A version-1 header ends where it says it ends: what follows it in the file, or the lack of
      it, changes nothing. */
  lemma HeaderIsSelfDelimiting(s: Bytes, t: Bytes)
    requires ParseHeader(s).Ok? && ParseHeader(s).value.header.Version1?
    ensures ParseHeader(s + t) == ParseHeader(s) == ParseHeader(s[..ParseHeader(s).value.size])
  {
    hide ParseHeader, EncodeVersionedHeader, ValidateLengths;
    EncodeOfParse(s);
    var Parsed(header, size) := ParseHeader(s).value;
    var h := header.header;
    ParseOfEncode(h.details, h.keyMaterial, h.nonce, h.tagSize, []);
    ParseOfEncode(h.details, h.keyMaterial, h.nonce, h.tagSize, s[size..]);
    ParseOfEncode(h.details, h.keyMaterial, h.nonce, h.tagSize, s[size..] + t);
    assert s[..size] + [] == s[..size];
    assert s[..size] + s[size..] == s;
    assert s[..size] + (s[size..] + t) == s + t;
  }

  // ---- The parser by byte offsets ----

  function At16(s: Bytes, i: nat): (r: nat)
    requires i + 2 <= |s|
  {
    s[i] as int * 256 + s[i + 1]
  }

  function At32(s: Bytes, i: nat): (r: nat)
    requires i + 4 <= |s|
  {
    ((s[i] as int * 256 + s[i + 1]) * 256 + s[i + 2]) * 256 + s[i + 3]
  }

  /** Everything the parser can say about what follows the version, told from offsets in the file. */
  lemma VersionedParseDecides(s: Bytes)
    requires |s| >= 13
    ensures ParseVersionedHeader(s[13..]) ==
      if |s| < 25 then Err(InvalidFormat(IncompleteVersionedHeader))
      else
        var k, n, t := At32(s, 17), At16(s, 21), At16(s, 23);
        if k == 0 || k > 16_777_216 then Err(InvalidFormat(KeyMaterialLength))
        else if n == 0 || n > 64 then Err(InvalidFormat(NonceLength))
        else if t == 0 || t > 64 then Err(InvalidFormat(TagLength))
        else if |s| < 25 + k then Err(InvalidFormat(IncompleteKeyMaterial))
        else if |s| < 25 + k + n then Err(InvalidFormat(IncompleteNonce))
        else Ok(VersionedHeader(AlgorithmDetails(At16(s, 13), At16(s, 15)), s[25..25 + k], s[25 + k..25 + k + n], t,
                                Preamble(CURRENT_VERSION) + s[13..25 + k + n]))
  {
    hide Preamble, ReadMetadata, At16, At32;
    var rest := s[13..];
    if |s| >= 25 {
      SliceOfSlice(s, 13, 0, 12);
      MetadataByOffset(s);
      var k, n := At32(s, 17), At16(s, 21);
      if |s| >= 25 + k + n {
        SliceOfSlice(s, 13, 12, 12 + k);
        SliceOfSlice(s, 13, 12 + k, 12 + k + n);
        JoinedSlices(s, 13, 25, 25 + k, 25 + k + n);
        ConcatAssociative(Preamble(CURRENT_VERSION), s[13..25] + s[25..25 + k], s[25 + k..25 + k + n]);
        ConcatAssociative(Preamble(CURRENT_VERSION), s[13..25], s[25..25 + k]);
      }
    }
  }

  lemma JoinedSlices(s: Bytes, a: nat, b: nat, c: nat, d: nat)
    requires a <= b <= c <= d <= |s|
    ensures s[a..d] == s[a..b] + s[b..c] + s[c..d]
  {
  }

  lemma MetadataByOffset(s: Bytes)
    requires |s| >= 25
    ensures ReadMetadata(s[13..25])
         == Lengths(AlgorithmDetails(At16(s, 13), At16(s, 15)), At32(s, 17), At16(s, 21), At16(s, 23))
  {
    SliceInSlice(s, 13, 25, 0, 2);
    SliceInSlice(s, 13, 25, 2, 4);
    SliceInSlice(s, 13, 25, 4, 8);
    SliceInSlice(s, 13, 25, 8, 10);
    SliceInSlice(s, 13, 25, 10, 12);
  }

  lemma VersionByOffset(s: Bytes)
    requires |s| >= 13
    ensures BytesToU16(s[11..13]) == At16(s, 11)
  {
  }

  /** The whole decision of the parser, for every input. */
  lemma ParseDecides(s: Bytes)
    ensures ParseHeader(s) ==
      if |s| < 13 then Err(InvalidFormat(IncompletePreamble))
      else if s[..11] != [0, 0, 0, 0, 77, 85, 69, 78, 67, 0, 0] then Err(InvalidFormat(WrongMagic))
      else if At16(s, 11) == 0 then Ok(Parsed(Legacy, 13))
      else if At16(s, 11) != 1 then Err(InvalidFormat(UnsupportedVersion(At16(s, 11))))
      else if |s| < 25 then Err(InvalidFormat(IncompleteVersionedHeader))
      else
        var k, n, t := At32(s, 17), At16(s, 21), At16(s, 23);
        if k == 0 || k > 16_777_216 then Err(InvalidFormat(KeyMaterialLength))
        else if n == 0 || n > 64 then Err(InvalidFormat(NonceLength))
        else if t == 0 || t > 64 then Err(InvalidFormat(TagLength))
        else if |s| < 25 + k then Err(InvalidFormat(IncompleteKeyMaterial))
        else if |s| < 25 + k + n then Err(InvalidFormat(IncompleteNonce))
        else Ok(Parsed(Version1(VersionedHeader(AlgorithmDetails(At16(s, 13), At16(s, 15)), s[25..25 + k],
                                                s[25 + k..25 + k + n], t, s[..25 + k + n])), 25 + k + n))
  {
    hide ParseVersionedHeader, At16, At32, BytesToU16, EncodeVersionedHeader;
    if |s| >= 13 {
      VersionedParseDecides(s);
      VersionByOffset(s);
      if ParseHeader(s).Ok? && ParseHeader(s).value.header.Version1? {
        EncodeOfParse(s);
      }
    }
  }

  /** The whole of `s` is one version-1 header. */
  predicate IsVersionedHeader(s: Bytes) {
    ParseHeader(s).Ok? && ParseHeader(s).value.header.Version1? && ParseHeader(s).value.size == |s|
  }

  /** No accepted header is a proper prefix of another, so a file has at most one split into a
      header and a body. */
  lemma HeaderSplitIsUnique(aad: Bytes, body: Bytes, aad': Bytes, body': Bytes)
    requires IsVersionedHeader(aad) && IsVersionedHeader(aad')
    requires aad + body == aad' + body'
    ensures aad == aad' && body == body'
  {
    hide ParseHeader;
    HeaderIsSelfDelimiting(aad, body);
    HeaderIsSelfDelimiting(aad', body');
    ConcatSlices(aad, body);
    ConcatSlices(aad', body');
  }
}
