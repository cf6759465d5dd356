/** Reading the framing from a stream that may deliver its bytes in pieces of any size. */
module HeaderReader {
  import opened Common
  import opened FileFormat
  import opened Io

  method ReadFormatExact(world: World, input: Input, buffer: array<byte>, reason: FormatError) returns (r: Result<()>)
    requires input.Valid()
    modifies input`pos, buffer, world`faults, world`interruptions
    ensures input.Valid()
    ensures r.Ok? ==>
      && input.pos == old(input.pos) + buffer.Length && buffer[..] == input.data[old(input.pos)..input.pos]
      && world.faults == old(world.faults)
    ensures r.Err? ==>
      if world.faults == old(world.faults)
      then r.error == InvalidFormat(reason) && |input.data| - old(input.pos) < buffer.Length
      else r.error == Error.Io && world.faults > old(world.faults)
  {
    var filled := input.ReadExact(world, buffer);
    if filled.Err? {
      return Err(filled.error);
    }
    r := if filled.value then Ok(()) else Err(InvalidFormat(reason));
  }

  method ReadHeader(world: World, input: Input) returns (r: Result<FileHeader>)
    requires input.Valid() && input.pos == 0
    modifies input`pos, world`faults, world`interruptions
    ensures input.Valid()
    ensures r.Ok? ==> world.faults == old(world.faults) && ParseHeader(input.data) == Ok(Parsed(r.value, input.pos))
    ensures r.Err? ==>
      if world.faults == old(world.faults)
      then ParseHeader(input.data) == Err(r.error)
      else r.error == Error.Io && world.faults > old(world.faults)
  {
    hide ParseVersionedHeader;
    var bytes := new byte[PREAMBLE_SIZE](i => 0);
    var read := ReadFormatExact(world, input, bytes, IncompletePreamble);
    if read.Err? {
      return Err(read.error);
    }
    assert bytes[..] == input.data[..PREAMBLE_SIZE];
    assert bytes[..|MAGIC_PREFIX|] == input.data[..|MAGIC_PREFIX|];
    if bytes[..|MAGIC_PREFIX|] != MAGIC_PREFIX {
      return Err(InvalidFormat(WrongMagic));
    }
    assert bytes[|MAGIC_PREFIX|..] == input.data[|MAGIC_PREFIX|..PREAMBLE_SIZE];
    var version := BytesToU16(bytes[|MAGIC_PREFIX|..]);
    if version == LEGACY_VERSION {
      return Ok(Legacy);
    }
    if version != CURRENT_VERSION {
      return Err(InvalidFormat(UnsupportedVersion(version)));
    }
    var header := ReadVersionedHeader(world, input);
    if header.Err? {
      return Err(header.error);
    }
    r := Ok(Version1(header.value));
  }

  method ReadVersionedHeader(world: World, input: Input) returns (r: Result<VersionedHeader>)
    requires input.Valid()
    modifies input`pos, world`faults, world`interruptions
    ensures input.Valid()
    ensures r.Ok? ==>
      && world.faults == old(world.faults)
      && ParseVersionedHeader(input.data[old(input.pos)..]) == r
      && input.pos == old(input.pos) + VersionedSize(r.value)
    ensures r.Err? ==>
      if world.faults == old(world.faults)
      then ParseVersionedHeader(input.data[old(input.pos)..]) == r
      else r.error == Error.Io && world.faults > old(world.faults)
  {
    hide ReadMetadata, Preamble;
    ghost var s := input.data[input.pos..];
    var metadata := new byte[VERSIONED_METADATA_SIZE](i => 0);
    var read := ReadFormatExact(world, input, metadata, IncompleteVersionedHeader);
    if read.Err? {
      return Err(read.error);
    }
    assert metadata[..] == s[..VERSIONED_METADATA_SIZE];
    var fields := ReadMetadata(metadata[..]);
    var checked := ValidateLengths(fields.keyMaterialLen, fields.nonceLen, fields.tagSize);
    if checked.Err? {
      return Err(checked.error);
    }
    ghost var nonceAt := VERSIONED_METADATA_SIZE + fields.keyMaterialLen;

    var keyMaterial := new byte[fields.keyMaterialLen](i => 0);
    read := ReadFormatExact(world, input, keyMaterial, IncompleteKeyMaterial);
    if read.Err? {
      return Err(read.error);
    }
    assert keyMaterial[..] == s[VERSIONED_METADATA_SIZE..nonceAt];
    var nonce := new byte[fields.nonceLen](i => 0);
    read := ReadFormatExact(world, input, nonce, IncompleteNonce);
    if read.Err? {
      return Err(read.error);
    }
    assert nonce[..] == s[nonceAt..nonceAt + fields.nonceLen];

    var authenticatedBytes := Preamble(CURRENT_VERSION);
    authenticatedBytes := authenticatedBytes + metadata[..];
    authenticatedBytes := authenticatedBytes + keyMaterial[..];
    authenticatedBytes := authenticatedBytes + nonce[..];
    r := Ok(VersionedHeader(fields.details, keyMaterial[..], nonce[..], fields.tagSize, authenticatedBytes));
  }
}
