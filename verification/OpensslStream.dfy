/** The stateful cipher behind StreamEncryptor and StreamDecryptor. */
module OpensslStream {
  import opened Common
  import opened Primitives
  import opened Io

  datatype Mode = Encrypting | Decrypting

  /** Bytes go in by updates of any size and come out transformed, in order. Up to a block may be
      held back until the next update or the end. */
  class StreamCipher {
    const suite: Suite
    const mode: Mode
    const context: CipherContext
    var aad: Bytes
    var consumed: Bytes
    var produced: nat
    var tag: Option<Bytes>

    ghost predicate Valid()
      reads this
    {
      produced <= |consumed| < produced + BlockSize()
    }

    function BlockSize(): nat {
      suite.blockSize(context.cipher)
    }

    function Transformed(): Bytes
      reads this
    {
      Stream(suite, context, 0, consumed)
    }

    /** The tag over the ciphertext: the output when encrypting, the input when decrypting. */
    function ExpectedTag(): Bytes
      reads this
    {
      suite.tag(context, aad, if mode == Encrypting then Transformed() else consumed)
    }

    constructor (suite: Suite, mode: Mode, context: CipherContext)
      requires suite.blockSize(context.cipher) >= 1
      ensures Valid() && this.suite == suite && this.mode == mode && this.context == context
      ensures aad == [] && consumed == [] && produced == 0 && tag == None
    {
      this.suite, this.mode, this.context := suite, mode, context;
      aad, consumed, produced, tag := [], [], 0, None;
    }

    method AuthenticateHeader(world: World, header: Bytes) returns (r: Result<()>)
      requires Valid() && consumed == []
      modifies this`aad, world`faults
      ensures r.Ok? ==> aad == old(aad) + header && world.faults == old(world.faults)
      ensures r.Err? ==> r.error == Crypto && world.faults == old(world.faults) + 1
    {
      var failed := world.Fault();
      if failed {
        return Err(Crypto);
      }
      aad := aad + header;
      r := Ok(());
    }

    /** `output[..room]` must have a block more room than the input needs. */
    method Update(world: World, data: Bytes, output: array<byte>, room: nat) returns (r: Result<nat>)
      requires Valid() && |data| + BlockSize() <= room <= output.Length
      modifies this`consumed, this`produced, output, world`faults
      ensures Valid()
      ensures r.Ok? ==>
        && consumed == old(consumed) + data && produced == old(produced) + r.value && r.value <= room
        && output[..r.value] == Transformed()[old(produced)..produced]
        && world.faults == old(world.faults)
      ensures r.Err? ==> r.error == Crypto && world.faults == old(world.faults) + 1
    {
      var failed := world.Fault();
      if failed {
        return Err(Crypto);
      }
      consumed := consumed + data;
      var heldBack: nat :| heldBack < BlockSize() && produced + heldBack <= |consumed| by {
        assert produced + 0 <= |consumed|;
      }
      var count := |consumed| - heldBack - produced;
      HandOut(output, count);
      r := Ok(count);
    }

    method HandOut(output: array<byte>, count: nat)
      requires produced + count <= |consumed| && count <= output.Length
      modifies this`produced, output
      ensures produced == old(produced) + count
      ensures output[..count] == Transformed()[old(produced)..produced]
    {
      forall i | 0 <= i < count {
        output[i] := Transformed()[produced + i];
      }
      produced := produced + count;
    }

    method SetAuthenticationTag(world: World, tag: Bytes) returns (r: Result<()>)
      modifies this`tag, world`faults
      ensures r.Ok? ==> this.tag == Some(tag) && world.faults == old(world.faults)
      ensures r.Err? ==> r.error == Crypto && world.faults == old(world.faults) + 1
    {
      var failed := world.Fault();
      if failed {
        return Err(Crypto);
      }
      this.tag := Some(tag);
      r := Ok(());
    }

    /** Hands out what was held back. Decryption fails here unless the tag that was set is right. */
    method Finalize(world: World, output: array<byte>) returns (r: Result<nat>)
      requires Valid() && BlockSize() <= output.Length
      modifies this`produced, output, world`faults
      ensures Valid()
      ensures r.Ok? ==>
        && produced == |consumed| == old(produced) + r.value && r.value <= output.Length
        && output[..r.value] == Transformed()[old(produced)..]
        && world.faults == old(world.faults)
        && (mode == Decrypting ==> tag == Some(ExpectedTag()))
      ensures r.Err? ==>
        && r.error == (if mode == Encrypting then Crypto else AuthenticationFailed)
        && (world.faults == old(world.faults) ==> mode == Decrypting && tag != Some(ExpectedTag()))
        && old(world.faults) <= world.faults <= old(world.faults) + 1
    {
      var failed := world.Fault();
      if failed || (mode == Decrypting && tag != Some(ExpectedTag())) {
        return Err(if mode == Encrypting then Crypto else AuthenticationFailed);
      }
      var count := |consumed| - produced;
      HandOut(output, count);
      r := Ok(count);
    }

    method AuthenticationTag(world: World, buffer: array<byte>) returns (r: Result<()>)
      requires mode == Encrypting && buffer.Length == |ExpectedTag()|
      modifies buffer, world`faults
      ensures r.Ok? ==> buffer[..] == ExpectedTag() && world.faults == old(world.faults)
      ensures r.Err? ==> r.error == Crypto && world.faults == old(world.faults) + 1
    {
      var failed := world.Fault();
      if failed {
        return Err(Crypto);
      }
      forall i | 0 <= i < buffer.Length {
        buffer[i] := ExpectedTag()[i];
      }
      r := Ok(());
    }
  }
}
