/** The two streaming loops. Their buffers have a fixed size, whatever the length of the input. */
module Streaming {
  import opened Common
  import opened Primitives
  import opened Session
  import opened TempNames
  import opened FileSystem
  import opened Io
  import opened Transactional
  import opened OpensslStream
  import opened SessionSetup
  import opened Progress

  const STREAM_BUFFER_SIZE: nat := 1024 * 1024

  /** What has been handed out stays the beginning of the transform as more bytes come in. */
  lemma StreamGrows(suite: Suite, context: CipherContext, before: Bytes, data: Bytes, p: nat, q: nat)
    requires p <= |before| && p <= q <= |before + data|
    ensures Stream(suite, context, 0, before + data)[..q]
         == Stream(suite, context, 0, before)[..p] + Stream(suite, context, 0, before + data)[p..q]
  {
    hide Stream;
    StreamExtends(suite, context, 0, before, data);
    var whole := Stream(suite, context, 0, before + data);
    assert whole[..p] == Stream(suite, context, 0, before)[..p];
    assert whole[..q] == whole[..p] + whole[p..q];
  }

  lemma StagedStart(h: seq<State>, s: State, output: TransactionalOutput)
    ensures Staged(h, s, h, s, output.id, output.temporaryPath)
  {
  }

  /** Gives `data` to the cipher and what comes out to the output. `start` is what the output held
      before the first byte of this cipher. */
  method Feed(world: World, cipher: StreamCipher, data: Bytes, buffer: array<byte>, room: nat,
              output: TransactionalOutput, ghost start: Bytes)
    returns (r: Result<()>)
    requires output.world == world && output.Is(Writing) && cipher.Valid()
    requires |data| + cipher.BlockSize() <= room <= buffer.Length
    requires output.Contents() == start + cipher.Transformed()[..cipher.produced]
    modifies world, output, cipher`consumed, cipher`produced, buffer
    ensures output.Is(Writing) && cipher.Valid()
    ensures Staged(old(world.history), old(world.state), world.history, world.state, output.id, output.temporaryPath)
    ensures r.Ok? ==>
      && world.faults == old(world.faults) && cipher.consumed == old(cipher.consumed) + data
      && output.Contents() == start + cipher.Transformed()[..cipher.produced]
    ensures r.Err? ==> r.error in {Error.Io, Crypto} && world.faults > old(world.faults)
  {
    hide Staged, Run, Stream, Inv, IsTemporary, TempPath;
    StagedStart(world.history, world.state, output);
    ghost var before, p := cipher.consumed, cipher.produced;
    var count := cipher.Update(world, data, buffer, room);
    if count.Err? {
      return Err(count.error);
    }
    StreamGrows(cipher.suite, cipher.context, before, data, p, cipher.produced);
    ghost var part := cipher.Transformed()[p..cipher.produced];
    ConcatAssociative(start, Stream(cipher.suite, cipher.context, 0, before)[..p], part);
    r := output.Write(buffer[..count.value]);
  }

  /** Ends the cipher and writes what it had held back. */
  method Finish(world: World, cipher: StreamCipher, buffer: array<byte>, output: TransactionalOutput,
                ghost start: Bytes)
    returns (r: Result<()>)
    requires output.world == world && output.Is(Writing) && cipher.Valid()
    requires cipher.BlockSize() <= buffer.Length
    requires output.Contents() == start + cipher.Transformed()[..cipher.produced]
    modifies world, output, cipher`produced, buffer
    ensures output.Is(Writing) && cipher.Valid()
    ensures Staged(old(world.history), old(world.state), world.history, world.state, output.id, output.temporaryPath)
    ensures r.Ok? ==>
      && world.faults == old(world.faults) && output.Contents() == start + cipher.Transformed()
      && (cipher.mode == Decrypting ==> cipher.tag == Some(cipher.ExpectedTag()))
    ensures r.Err? ==>
      if world.faults == old(world.faults)
      then r.error == AuthenticationFailed && cipher.mode == Decrypting && cipher.tag != Some(cipher.ExpectedTag())
      else r.error in {Error.Io, Crypto, AuthenticationFailed} && world.faults > old(world.faults)
    ensures cipher.mode == Encrypting && r.Err? ==> r.error in {Error.Io, Crypto}
  {
    hide Staged, Run, Stream, Inv, IsTemporary, TempPath;
    StagedStart(world.history, world.state, output);
    ghost var p := cipher.produced;
    var count := cipher.Finalize(world, buffer);
    if count.Err? {
      return Err(count.error);
    }
    ghost var whole := cipher.Transformed();
    assert whole == whole[..p] + whole[p..];
    ConcatAssociative(start, whole[..p], whole[p..]);
    r := output.Write(buffer[..count.value]);
  }

  /** Reads, transforms and writes until the input ends; then writes what was held back and the
      tag. However the reads are cut, the output receives the sealed body. */
  method EncryptStream(world: World, input: Input, encryptor: StreamCipher, blockSize: nat, tagSize: nat,
                       output: TransactionalOutput, meter: Meter)
    returns (r: Result<()>)
    requires output.world == world && output.Is(Writing) && input.Valid() && input.pos == 0
    requires Started(encryptor, encryptor.suite, Encrypting, encryptor.context, encryptor.aad)
    requires blockSize == encryptor.BlockSize()
    requires forall aad, ciphertext :: |encryptor.suite.tag(encryptor.context, aad, ciphertext)| == tagSize
    modifies world, output, input`pos, encryptor, meter`processed
    ensures output.Is(Writing)
    ensures Staged(old(world.history), old(world.state), world.history, world.state, output.id, output.temporaryPath)
    ensures r.Ok? ==>
      && world.faults == old(world.faults)
      && output.Contents() == old(output.Contents())
           + SealBody(encryptor.suite, encryptor.context, old(encryptor.aad), input.data)
      && meter.processed == old(meter.processed) + |input.data|
    ensures r.Err? ==> r.error in {Error.Io, Crypto} && world.faults > old(world.faults)
  {
    hide Staged, Run, Stream, Inv, IsTemporary, TempPath;
    var outputBuffer := new byte[STREAM_BUFFER_SIZE + blockSize](i => 0);
    ghost var start := output.Contents();
    r := EncryptLoop(world, input, encryptor, outputBuffer, output, meter);
    if r.Err? {
      return;
    }
    ghost var h, s := world.history, world.state;
    r := Finish(world, encryptor, outputBuffer, output, start);
    StagedTwice(old(world.history), old(world.state), h, s, world.history, world.state, output.id,
                output.temporaryPath);
    if r.Err? {
      return;
    }
    h, s := world.history, world.state;
    r := WriteTag(world, encryptor, tagSize, output);
    StagedTwice(old(world.history), old(world.state), h, s, world.history, world.state, output.id,
                output.temporaryPath);
    ConcatAssociative(start, encryptor.Transformed(), encryptor.ExpectedTag());
  }

  method WriteTag(world: World, encryptor: StreamCipher, tagSize: nat, output: TransactionalOutput)
    returns (r: Result<()>)
    requires output.world == world && output.Is(Writing)
    requires encryptor.mode == Encrypting && |encryptor.ExpectedTag()| == tagSize
    modifies world, output
    ensures output.Is(Writing)
    ensures Staged(old(world.history), old(world.state), world.history, world.state, output.id, output.temporaryPath)
    ensures r.Ok? ==>
      world.faults == old(world.faults) && output.Contents() == old(output.Contents()) + encryptor.ExpectedTag()
    ensures r.Err? ==> r.error in {Error.Io, Crypto} && world.faults > old(world.faults)
  {
    hide Staged, Run, Stream, Inv, IsTemporary, TempPath;
    StagedStart(world.history, world.state, output);
    var tag := new byte[tagSize](i => 0);
    r := encryptor.AuthenticationTag(world, tag);
    if r.Err? {
      return;
    }
    r := output.Write(tag[..]);
  }

  method EncryptLoop(world: World, input: Input, encryptor: StreamCipher, outputBuffer: array<byte>,
                     output: TransactionalOutput, meter: Meter)
    returns (r: Result<()>)
    requires output.world == world && output.Is(Writing) && input.Valid() && input.pos == 0
    requires Started(encryptor, encryptor.suite, Encrypting, encryptor.context, encryptor.aad)
    requires outputBuffer.Length == STREAM_BUFFER_SIZE + encryptor.BlockSize()
    modifies world, output, input`pos, encryptor`consumed, encryptor`produced, meter`processed, outputBuffer
    ensures output.Is(Writing) && encryptor.Valid()
    ensures Staged(old(world.history), old(world.state), world.history, world.state, output.id, output.temporaryPath)
    ensures r.Ok? ==>
      && world.faults == old(world.faults) && encryptor.consumed == input.data
      && output.Contents() == old(output.Contents()) + encryptor.Transformed()[..encryptor.produced]
      && meter.processed == old(meter.processed) + |input.data|
    ensures r.Err? ==> r.error in {Error.Io, Crypto} && world.faults > old(world.faults)
  {
    hide Staged, Run, Stream, Inv, IsTemporary, TempPath;
    var inputBuffer := new byte[STREAM_BUFFER_SIZE](i => 0);
    ghost var start := output.Contents();
    StagedStart(world.history, world.state, output);
    while true
      invariant output.Is(Writing) && input.Valid() && encryptor.Valid()
      invariant encryptor.consumed == input.data[..input.pos]
      invariant output.Contents() == start + encryptor.Transformed()[..encryptor.produced]
      invariant Staged(old(world.history), old(world.state), world.history, world.state, output.id,
                       output.temporaryPath)
      invariant world.faults == old(world.faults)
      invariant meter.processed == old(meter.processed) + input.pos
      decreases |input.data| - input.pos
    {
      ghost var h, s, from := world.history, world.state, input.pos;
      var count := input.Read(world, inputBuffer, 0);
      if count.Err? {
        return Err(count.error);
      }
      if count.value == 0 {
        break;
      }
      assert input.data[..input.pos] == input.data[..from] + input.data[from..input.pos];
      r := Feed(world, encryptor, inputBuffer[..count.value], outputBuffer, outputBuffer.Length, output, start);
      StagedTwice(old(world.history), old(world.state), h, s, world.history, world.state, output.id,
                  output.temporaryPath);
      if r.Err? {
        return;
      }
      meter.Advance(count.value);
    }
    assert input.data[..input.pos] == input.data;
    r := Ok(());
  }

  /** Appends to the used part of a buffer. */
  method Append(buffer: array<byte>, used: nat, source: array<byte>, count: nat)
    requires used + count <= buffer.Length && count <= source.Length && buffer != source
    modifies buffer
    ensures buffer[..used + count] == old(buffer[..used]) + source[..count]
  {
    forall i | 0 <= i < count {
      buffer[used + i] := source[i];
    }
  }

  /** Moves `buffer[from..used]` to the front. */
  method CopyToFront(buffer: array<byte>, from: nat, used: nat)
    requires from <= used <= buffer.Length
    modifies buffer
    ensures buffer[..used - from] == old(buffer[from..used])
  {
    forall i | 0 <= i < used - from {
      buffer[i] := buffer[from + i];
    }
  }

  /** The decryptor has seen the body so far except for its last `tagSize` bytes, which are pending;
      while less than that has been read, it has seen nothing. */
  ghost predicate Sliding(seen: Bytes, pending: Bytes, body: Bytes, tagSize: nat) {
    && seen + pending == body && |pending| <= tagSize
    && (|pending| < tagSize ==> seen == [])
  }

  /** Taking in a chunk keeps the window, whether or not anything leaves it for the decryptor. */
  lemma SlidingStep(seen: Bytes, held: Bytes, chunk: Bytes, body: Bytes, tagSize: nat)
    requires Sliding(seen, held, body, tagSize)
    ensures var all := held + chunk;
            var leaving := if |all| > tagSize then |all| - tagSize else 0;
            Sliding(seen + all[..leaving], all[leaving..], body + chunk, tagSize)
  {
    var all := held + chunk;
    var leaving := if |all| > tagSize then |all| - tagSize else 0;
    ConcatAssociative(seen, held, chunk);
    ConcatAssociative(seen, all[..leaving], all[leaving..]);
    assert all == all[..leaving] + all[leaving..];
  }

  /** One round of the loop after a read of `count` bytes: append, feed all but the last `tagSize`
      pending bytes, move those to the front, truncate. The result is the new pending length. */
  method DecryptChunk(world: World, decryptor: StreamCipher, blockSize: nat, tagSize: nat, pending: array<byte>,
                      used: nat, inputBuffer: array<byte>, count: nat, outputBuffer: array<byte>,
                      output: TransactionalOutput, meter: Meter, ghost start: Bytes, ghost body: Bytes)
    returns (r: Result<nat>)
    requires output.world == world && output.Is(Writing) && decryptor.Valid()
    requires blockSize == decryptor.BlockSize() && outputBuffer.Length == STREAM_BUFFER_SIZE + blockSize
    requires count <= inputBuffer.Length == STREAM_BUFFER_SIZE && pending.Length == STREAM_BUFFER_SIZE + tagSize
    requires pending != inputBuffer && pending != outputBuffer && used <= tagSize
    requires Sliding(decryptor.consumed, pending[..used], body, tagSize)
    requires output.Contents() == start + decryptor.Transformed()[..decryptor.produced]
    modifies world, output, decryptor`consumed, decryptor`produced, meter`processed, outputBuffer, pending
    ensures output.Is(Writing) && decryptor.Valid()
    ensures Staged(old(world.history), old(world.state), world.history, world.state, output.id, output.temporaryPath)
    ensures r.Ok? ==>
      && world.faults == old(world.faults) && r.value <= tagSize
      && Sliding(decryptor.consumed, pending[..r.value], body + old(inputBuffer[..count]), tagSize)
      && output.Contents() == start + decryptor.Transformed()[..decryptor.produced]
      && meter.processed == old(meter.processed) + |decryptor.consumed| - |old(decryptor.consumed)|
    ensures r.Err? ==> r.error in {Error.Io, Crypto} && world.faults > old(world.faults)
  {
    hide Staged, Run, Stream, Inv, IsTemporary, TempPath, Sliding;
    StagedStart(world.history, world.state, output);
    SlidingStep(decryptor.consumed, pending[..used], inputBuffer[..count], body, tagSize);
    Append(pending, used, inputBuffer, count);
    var pendingLen := used + count;
    var ciphertextCount := if pendingLen > tagSize then pendingLen - tagSize else 0;
    if ciphertextCount == 0 {
      assert pending[..pendingLen][0..] == pending[..pendingLen];
      assert decryptor.consumed + pending[..pendingLen][..0] == decryptor.consumed;
      return Ok(pendingLen);
    }
    var fed := Drain(world, decryptor, blockSize, tagSize, pending, pendingLen, outputBuffer, output, meter, start);
    r := if fed.Err? then Err(fed.error) else Ok(tagSize);
  }

  /** Feeds everything pending but its last `tagSize` bytes, and moves those to the front. */
  method Drain(world: World, decryptor: StreamCipher, blockSize: nat, tagSize: nat, pending: array<byte>,
               pendingLen: nat, outputBuffer: array<byte>, output: TransactionalOutput, meter: Meter,
               ghost start: Bytes)
    returns (r: Result<()>)
    requires output.world == world && output.Is(Writing) && decryptor.Valid()
    requires blockSize == decryptor.BlockSize() && outputBuffer.Length == STREAM_BUFFER_SIZE + blockSize
    requires pending.Length == STREAM_BUFFER_SIZE + tagSize && tagSize < pendingLen <= pending.Length
    requires pending != outputBuffer
    requires output.Contents() == start + decryptor.Transformed()[..decryptor.produced]
    modifies world, output, decryptor`consumed, decryptor`produced, meter`processed, outputBuffer, pending
    ensures output.Is(Writing) && decryptor.Valid()
    ensures Staged(old(world.history), old(world.state), world.history, world.state, output.id, output.temporaryPath)
    ensures r.Ok? ==>
      && world.faults == old(world.faults)
      && decryptor.consumed == old(decryptor.consumed) + old(pending[..pendingLen])[..pendingLen - tagSize]
      && pending[..tagSize] == old(pending[..pendingLen])[pendingLen - tagSize..]
      && output.Contents() == start + decryptor.Transformed()[..decryptor.produced]
      && meter.processed == old(meter.processed) + pendingLen - tagSize
    ensures r.Err? ==> r.error in {Error.Io, Crypto} && world.faults > old(world.faults)
  {
    hide Staged, Run, Stream, Inv, IsTemporary, TempPath;
    var ciphertextCount := pendingLen - tagSize;
    assert pending[..ciphertextCount] == pending[..pendingLen][..ciphertextCount];
    assert pending[ciphertextCount..pendingLen] == pending[..pendingLen][ciphertextCount..];
    r := Feed(world, decryptor, pending[..ciphertextCount], outputBuffer, ciphertextCount + blockSize, output, start);
    if r.Err? {
      return;
    }
    meter.Advance(ciphertextCount);
    CopyToFront(pending, ciphertextCount, pendingLen);
  }

  /** One round of the loop: a read, and what it leaves pending. The first result is false at the end of
      the input. */
  method DecryptRound(world: World, input: Input, decryptor: StreamCipher, blockSize: nat, tagSize: nat,
                      pending: array<byte>, pendingLen: nat, inputBuffer: array<byte>, outputBuffer: array<byte>,
                      output: TransactionalOutput, meter: Meter, ghost start: Bytes, ghost bodyAt: nat)
    returns (r: Result<(bool, nat)>)
    requires output.world == world && output.Is(Writing) && decryptor.Valid() && input.Valid() && bodyAt <= input.pos
    requires blockSize == decryptor.BlockSize() && outputBuffer.Length == STREAM_BUFFER_SIZE + blockSize
    requires inputBuffer.Length == STREAM_BUFFER_SIZE && pending.Length == STREAM_BUFFER_SIZE + tagSize
    requires pending != inputBuffer && pending != outputBuffer && inputBuffer != outputBuffer && pendingLen <= tagSize
    requires Sliding(decryptor.consumed, pending[..pendingLen], input.data[bodyAt..input.pos], tagSize)
    requires output.Contents() == start + decryptor.Transformed()[..decryptor.produced]
    modifies world, output, input`pos, decryptor`consumed, decryptor`produced, meter`processed
    modifies inputBuffer, outputBuffer, pending
    ensures output.Is(Writing) && decryptor.Valid() && input.Valid()
    ensures Staged(old(world.history), old(world.state), world.history, world.state, output.id, output.temporaryPath)
    ensures r.Ok? ==>
      var (more, left) := r.value;
      && world.faults == old(world.faults) && left <= tagSize
      && (if more then old(input.pos) < input.pos else input.pos == |input.data|)
      && Sliding(decryptor.consumed, pending[..left], input.data[bodyAt..input.pos], tagSize)
      && output.Contents() == start + decryptor.Transformed()[..decryptor.produced]
      && meter.processed == old(meter.processed) + |decryptor.consumed| - |old(decryptor.consumed)|
    ensures r.Err? ==> r.error in {Error.Io, Crypto} && world.faults > old(world.faults)
  {
    hide Staged, Run, Stream, Inv, IsTemporary, TempPath, Sliding;
    StagedStart(world.history, world.state, output);
    var count := input.Read(world, inputBuffer, 0);
    if count.Err? {
      return Err(count.error);
    }
    if count.value == 0 {
      return Ok((false, pendingLen));
    }
    SliceExtends(input.data, bodyAt, old(input.pos), input.pos);
    var left := DecryptChunk(world, decryptor, blockSize, tagSize, pending, pendingLen, inputBuffer, count.value,
                             outputBuffer, output, meter, start, input.data[bodyAt..old(input.pos)]);
    r := if left.Err? then Err(left.error) else Ok((true, left.value));
  }

  /** Decrypts a body whose end is not known in advance. `pending` never outgrows the space that is
      reserved for it here. */
  method DecryptLoop(world: World, input: Input, decryptor: StreamCipher, blockSize: nat, tagSize: nat,
                     outputBuffer: array<byte>, output: TransactionalOutput, meter: Meter)
    returns (r: Result<Bytes>)
    requires output.world == world && output.Is(Writing) && input.Valid()
    requires Started(decryptor, decryptor.suite, Decrypting, decryptor.context, decryptor.aad)
    requires blockSize == decryptor.BlockSize() && outputBuffer.Length == STREAM_BUFFER_SIZE + blockSize
    modifies world, output, input`pos, decryptor`consumed, decryptor`produced, meter`processed, outputBuffer
    ensures output.Is(Writing) && decryptor.Valid()
    ensures Staged(old(world.history), old(world.state), world.history, world.state, output.id, output.temporaryPath)
    ensures r.Ok? ==>
      && world.faults == old(world.faults)
      && Sliding(decryptor.consumed, r.value, input.data[old(input.pos)..], tagSize)
      && output.Contents() == old(output.Contents()) + decryptor.Transformed()[..decryptor.produced]
      && meter.processed == old(meter.processed) + |decryptor.consumed|
    ensures r.Err? ==> r.error in {Error.Io, Crypto} && world.faults > old(world.faults)
  {
    hide Staged, Run, Stream, Inv, IsTemporary, TempPath, Sliding;
    var inputBuffer := new byte[STREAM_BUFFER_SIZE](i => 0);
    var pending := new byte[STREAM_BUFFER_SIZE + tagSize](i => 0);
    var pendingLen: nat := 0;
    var more := true;
    ghost var start, bodyAt := output.Contents(), input.pos;
    SlidingStart(tagSize);
    assert pending[..0] == [] && input.data[bodyAt..bodyAt] == [];
    StagedStart(world.history, world.state, output);
    while more
      invariant output.Is(Writing) && input.Valid() && decryptor.Valid() && bodyAt <= input.pos
      invariant pendingLen <= tagSize && (!more ==> input.pos == |input.data|)
      invariant Sliding(decryptor.consumed, pending[..pendingLen], input.data[bodyAt..input.pos], tagSize)
      invariant output.Contents() == start + decryptor.Transformed()[..decryptor.produced]
      invariant Staged(old(world.history), old(world.state), world.history, world.state, output.id,
                       output.temporaryPath)
      invariant world.faults == old(world.faults)
      invariant meter.processed == old(meter.processed) + |decryptor.consumed|
      decreases |input.data| - input.pos, more
    {
      ghost var h, s := world.history, world.state;
      var round := DecryptRound(world, input, decryptor, blockSize, tagSize, pending, pendingLen, inputBuffer,
                                outputBuffer, output, meter, start, bodyAt);
      StagedTwice(old(world.history), old(world.state), h, s, world.history, world.state, output.id,
                  output.temporaryPath);
      if round.Err? {
        return Err(round.error);
      }
      more, pendingLen := round.value.0, round.value.1;
    }
    assert input.data[bodyAt..input.pos] == input.data[bodyAt..];
    r := Ok(pending[..pendingLen]);
  }

  lemma SliceExtends(s: Bytes, from: nat, mid: nat, to: nat)
    requires from <= mid <= to <= |s|
    ensures s[from..to] == s[from..mid] + s[mid..to]
  {
  }

  lemma SlidingStart(tagSize: nat)
    ensures Sliding([], [], [], tagSize)
  {
  }

  /** Decrypts and authenticates the rest of the input as specified by OpenBody. The output has not
      been committed yet. */
  method DecryptStream(world: World, input: Input, decryptor: StreamCipher, blockSize: nat, tagSize: nat,
                       output: TransactionalOutput, meter: Meter, ghost opening: Opening)
    returns (r: Result<()>)
    requires output.world == world && output.Is(Writing) && output.Contents() == [] && input.Valid()
    requires Started(decryptor, decryptor.suite, Decrypting, opening.context, opening.aad)
    requires blockSize == decryptor.BlockSize() && tagSize == opening.tagSize
    modifies world, output, input`pos, decryptor, meter`processed
    ensures output.Is(Writing)
    ensures Staged(old(world.history), old(world.state), world.history, world.state, output.id, output.temporaryPath)
    ensures r.Ok? ==>
      var body := input.data[old(input.pos)..];
      && world.faults == old(world.faults)
      && OpenBody(decryptor.suite, opening, body) == Ok(output.Contents())
      && meter.processed == old(meter.processed) + |body| - tagSize
    ensures r.Err? ==>
      if world.faults == old(world.faults)
      then OpenBody(decryptor.suite, opening, input.data[old(input.pos)..]) == Err(r.error)
      else world.faults > old(world.faults)
  {
    hide Staged, Run, Stream, Inv, IsTemporary, TempPath;
    ghost var body := input.data[input.pos..];
    var outputBuffer := new byte[STREAM_BUFFER_SIZE + blockSize](i => 0);
    var pending := DecryptLoop(world, input, decryptor, blockSize, tagSize, outputBuffer, output, meter);
    if pending.Err? {
      return Err(pending.error);
    }
    if |pending.value| != tagSize {
      return Err(InvalidFormat(IncompleteTag));
    }
    SlidingAtEnd(decryptor.consumed, pending.value, body, tagSize);
    r := decryptor.SetAuthenticationTag(world, pending.value);
    if r.Err? {
      return;
    }
    ghost var h, s := world.history, world.state;
    ghost var whole := decryptor.Transformed();
    assert output.Contents() == [] + whole[..decryptor.produced];
    r := Finish(world, decryptor, outputBuffer, output, []);
    assert [] + whole == whole;
    StagedTwice(old(world.history), old(world.state), h, s, world.history, world.state, output.id,
                output.temporaryPath);
  }

  /** At the end of the input the pending bytes are the tag, and the decryptor has seen the rest. */
  lemma SlidingAtEnd(seen: Bytes, pending: Bytes, body: Bytes, tagSize: nat)
    requires Sliding(seen, pending, body, tagSize)
    ensures |pending| == tagSize <==> |body| >= tagSize
    ensures |pending| == tagSize ==> seen == body[..|body| - tagSize] && pending == body[|body| - tagSize..]
  {
    ConcatSlices(seen, pending);
  }
}
