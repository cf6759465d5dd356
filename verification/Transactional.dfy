/** Output that becomes visible only when it is committed. */
module Transactional {
  import opened Common
  import opened TempNames
  import opened FileSystem
  import opened Io

  const MAX_ATTEMPTS: nat := 100

  /** All the names a new output would try from counter value `first` on are taken. */
  ghost predicate Taken(s: State, destination: Path, first: nat) {
    forall k :: first <= k < first + MAX_ATTEMPTS ==> TempPath(s.process, destination, k) in s.files
  }

  ghost predicate Crowded(s: State, destination: Path) {
    Taken(s, destination, s.counter)
  }

  /** 100 names are tried, no more and no fewer. */
  lemma CrowdedMeans(s: State, destination: Path)
    ensures Crowded(s, destination) <==>
      forall k :: s.counter <= k < s.counter + 100 ==> TempPath(s.process, destination, k) in s.files
  {
  }

  /** The files of `s` take as many names in a row as a new output would try, now or later. */
  ghost predicate RunsOut(s: State, destination: Path) {
    exists first: nat :: first >= s.counter && Taken(s, destination, first)
  }

  /** No output created from now on has the temporary file `t`. */
  ghost predicate Spent(s: State, t: Path) {
    forall d, k: nat :: d in s.process.destinations && k >= s.counter ==> TempPath(s.process, d, k) != t
  }

  lemma OrdinaryIsSpent(s: State, p: Path)
    requires !IsTemporary(s.process, p)
    ensures Spent(s, p)
  {
  }

  /** Files that have come since, with names that are spent, do not count. */
  lemma CrowdedRunsOut(s: State, s': State, added: set<Path>, destination: Path)
    requires s'.process == s.process && s'.counter >= s.counter && Crowded(s', destination)
    requires destination in s.process.destinations
    requires s'.files.Keys <= s.files.Keys + added && forall t :: t in added ==> Spent(s', t)
    ensures RunsOut(s, destination)
  {
    hide TempPath;
    forall k | s'.counter <= k < s'.counter + MAX_ATTEMPTS
      ensures TempPath(s.process, destination, k) in s.files
    {
      assert TempPath(s'.process, destination, k) in s'.files.Keys;
    }
    assert Taken(s, destination, s'.counter);
  }

  /** The files agree everywhere but at `p`. */
  predicate SameBut(files: map<Path, Bytes>, files': map<Path, Bytes>, p: Path) {
    files' - {p} == files - {p}
  }

  /** From history `h` and state `s` on, only output `id` was worked on, and nothing became visible. */
  ghost predicate Staged(h: seq<State>, s: State, h': seq<State>, s': State, id: nat, temporaryPath: Path) {
    && h <= h' && AllQuiet(h', |h|, s) && Quiet(s, s')
    && OthersUntouched(s, s', id) && |s'.outputs| == |s.outputs| && s'.counter == s.counter
    && SameBut(s.files, s'.files, temporaryPath)
  }

  /** The same, but `bytes` may have been delivered to `destination`. */
  ghost predicate Delivery(h: seq<State>, s: State, h': seq<State>, s': State, id: nat, destination: Path, bytes: Bytes)
  {
    && h <= h' && AllDelivering(h', |h|, s, destination, bytes)
    && OthersUntouched(s, s', id) && |s'.outputs| == |s.outputs| && s'.counter == s.counter
  }

  lemma StagedKeepsFrame(h: seq<State>, s: State, h': seq<State>, s': State, id: nat, temporaryPath: Path)
    requires Staged(h, s, h', s', id, temporaryPath)
    ensures |s'.outputs| == |s.outputs| && s'.process == s.process && s'.counter == s.counter
  {
  }

  lemma StagedTwice(h: seq<State>, s: State, h1: seq<State>, s1: State, h2: seq<State>, s2: State, id: nat,
                    temporaryPath: Path)
    requires Staged(h, s, h1, s1, id, temporaryPath) && Staged(h1, s1, h2, s2, id, temporaryPath)
    ensures Staged(h, s, h2, s2, id, temporaryPath)
  {
    hide Quiet, AllQuiet, TempPath;
    QuietTwice(s, s1, s2);
    QuietExtends(h1, h2, |h|, s, s1);
  }

  lemma DeliveryKeepsFrame(h: seq<State>, s: State, h': seq<State>, s': State, id: nat, destination: Path, bytes: Bytes)
    requires Delivery(h, s, h', s', id, destination, bytes)
    ensures |s'.outputs| == |s.outputs| && s'.process == s.process && s'.counter == s.counter
  {
  }

  lemma StagedThenDelivery(h: seq<State>, s: State, h1: seq<State>, s1: State, h2: seq<State>, s2: State, id: nat,
                           temporaryPath: Path, destination: Path, bytes: Bytes)
    requires Staged(h, s, h1, s1, id, temporaryPath) && Delivery(h1, s1, h2, s2, id, destination, bytes)
    ensures Delivery(h, s, h2, s2, id, destination, bytes)
  {
    hide Quiet, AllQuiet, AllDelivering, TempPath;
    DeliveringExtends(h1, h2, |h|, s, s1, destination, bytes);
  }

  lemma DeliveryThenStaged(h: seq<State>, s: State, h1: seq<State>, s1: State, h2: seq<State>, s2: State, id: nat,
                           temporaryPath: Path, destination: Path, bytes: Bytes)
    requires Delivery(h, s, h1, s1, id, destination, bytes) && Staged(h1, s1, h2, s2, id, temporaryPath)
    requires h1 != [] && |h| < |h1| && h1[|h1| - 1] == s1
    ensures Delivery(h, s, h2, s2, id, destination, bytes)
  {
    hide TempPath, Published, IsStdio;
    assert Delivering(s, s1, destination, bytes);
    forall i | |h| <= i < |h2|
      ensures Delivering(s, h2[i], destination, bytes)
    {
      if i < |h1| {
        assert h2[i] == h1[i];
      } else {
        assert Quiet(s1, h2[i]);
      }
    }
  }

  class TransactionalOutput {
    const world: World
    const destination: Path
    const temporaryPath: Path
    const id: nat              // which output of the protocol this is
    var writer: Option<Bytes>  // the buffered bytes that have not reached the file
    var committed: bool

    /** The object and the protocol's record of it are about the same files. */
    ghost predicate Refers()
      reads this, world
    {
      && world.Valid() && id < |world.state.outputs|
      && world.state.outputs[id].destination == destination && destination in world.state.process.destinations
      && Temporary(world.state, id) == temporaryPath
    }

    /** The object is at `phase` of the protocol in state `s`. */
    ghost predicate Represents(s: State, phase: Phase)
      reads this
    {
      && id < |s.outputs| && s.outputs[id].destination == destination && destination in s.process.destinations
      && Temporary(s, id) == temporaryPath && s.outputs[id].phase == phase
      && (writer.Some? <==> phase == Writing) && (committed <==> phase == Committed)
      && (temporaryPath in s.files <==> !Gone(phase))
      && (phase == Writing ==> s.files[temporaryPath] + writer.value == s.outputs[id].written)
    }

    ghost predicate Is(phase: Phase)
      reads this, world
    {
      world.Valid() && Represents(world.state, phase)
    }

    /** Everything written so far. */
    ghost function Contents(): Bytes
      reads this, world
      requires id < |world.state.outputs|
    {
      world.state.outputs[id].written
    }

    lemma NameIsSpent()
      requires Refers()
      ensures Spent(world.state, temporaryPath)
    {
      hide TempPath, IsTemporary, Inv;
      RunKeepsInv(world.history, |world.history| - 1);
      InvAt(world.state);
      assert OutputInv(world.state, id);
      forall d, k: nat | d in world.state.process.destinations && k >= world.state.counter
        ensures TempPath(world.state.process, d, k) != temporaryPath
      {
        TempPathsDiffer(world.state.process, d, k, destination, world.state.outputs[id].sequence);
      }
    }

    /** Work on another output since state `s` has left this one as it was. */
    lemma Unaffected(s: State, phase: Phase, other: nat)
      requires Represents(s, phase) && world.Valid() && other != id && OthersUntouched(s, world.state, other)
      ensures Is(phase) && Contents() == s.outputs[id].written
    {
      hide IsTemporary, TempPath, Run;
    }

    constructor (world: World, destination: Path, temporaryPath: Path, id: nat)
      ensures this.world == world && this.destination == destination && this.temporaryPath == temporaryPath
      ensures this.id == id && writer == Some([]) && !committed
    {
      this.world, this.destination, this.temporaryPath, this.id := world, destination, temporaryPath, id;
      writer, committed := Some([]), false;
    }

    static method New(world: World, destination: Path) returns (r: Result<TransactionalOutput>)
      requires world.Valid() && destination in world.state.process.destinations
      modifies world
      ensures world.Valid() && old(world.history) <= world.history
      ensures AllQuiet(world.history, |old(world.history)|, old(world.state)) && Quiet(old(world.state), world.state)
      ensures OthersUntouched(old(world.state), world.state, |old(world.state).outputs|)
      ensures world.state.process == old(world.state).process && world.state.counter >= old(world.state).counter
      ensures r.Ok? ==>
        && fresh(r.value) && r.value.world == world && r.value.destination == destination
        && r.value.id == |old(world.state).outputs| == |world.state.outputs| - 1
        && r.value.Is(Writing) && r.value.Contents() == []
        && r.value.temporaryPath !in old(world.state).files && IsTemporary(world.state.process, r.value.temporaryPath)
        && r.value.temporaryPath.dir == (if IsStdio(destination) then world.state.process.tempDir else destination.dir)
        && world.state.files == old(world.state).files[r.value.temporaryPath := []]
        && world.faults == old(world.faults)
      ensures r.Err? ==>
        && world.state.files == old(world.state).files && world.state.outputs == old(world.state).outputs
        && (if world.faults == old(world.faults)
            then r.error == NameCollisions && Crowded(old(world.state), destination)
            else r.error == Error.Io && world.faults > old(world.faults))
    {
      hide IsTemporary, TempPath, IsStdio, Inv, Published, Run;
      for attempt := 0 to MAX_ATTEMPTS
        invariant world.Valid() && old(world.history) <= world.history
        invariant AllQuiet(world.history, |old(world.history)|, old(world.state))
        invariant Quiet(old(world.state), world.state)
        invariant world.state.files == old(world.state).files && world.state.outputs == old(world.state).outputs
        invariant world.state.process == old(world.state).process
        invariant world.state.counter == old(world.state).counter + attempt
        invariant world.faults == old(world.faults)
        invariant forall k :: old(world.state).counter <= k < old(world.state).counter + attempt ==>
          TempPath(world.state.process, destination, k) in world.state.files
      {
        var sequence := world.state.counter;
        world.Perform(Draw);
        var temporaryPath := TempPath(world.state.process, destination, sequence);
        var failed := world.Fault();
        if failed {
          return Err(Error.Io);
        }
        if temporaryPath !in world.state.files {
          var id := |world.state.outputs|;
          TempPathIsTemporary(world.state.process, destination, sequence);
          TempPathDirectory(world.state.process, destination, sequence);
          world.Perform(Create(destination, sequence));
          var output := new TransactionalOutput(world, destination, temporaryPath, id);
          return Ok(output);
        }
      }
      r := Err(NameCollisions);
    }

    /** The buffer takes all of `bytes`, or, when the write fails, some of them; either way part of
        it may reach the temporary file. */
    method Write(bytes: Bytes) returns (r: Result<()>)
      requires Is(Writing)
      modifies this, world
      ensures Is(Writing)
      ensures Staged(old(world.history), old(world.state), world.history, world.state, id, temporaryPath)
      ensures r.Ok? ==> Contents() == old(Contents()) + bytes && world.faults == old(world.faults)
      ensures r.Err? ==> r.error == Error.Io && world.faults == old(world.faults) + 1
    {
      hide IsTemporary, TempPath, IsStdio, Inv, Published, Run;
      var failed := world.Fault();
      var count := |bytes|;
      if failed {
        count :| 0 <= count <= |bytes|;
      }
      Spill(bytes[..count]);
      if failed {
        return Err(Error.Io);
      }
      assert bytes[..count] == bytes;
      r := Ok(());
    }

    method Spill(accepted: Bytes)
      requires Is(Writing)
      modifies this`writer, world`state, world`history
      ensures Is(Writing)
      ensures Staged(old(world.history), old(world.state), world.history, world.state, id, temporaryPath)
      ensures Contents() == old(Contents()) + accepted
    {
      hide IsTemporary, TempPath, IsStdio, Inv, Published, Run;
      var buffered := writer.value + accepted;
      var spilled: nat :| spilled <= |buffered|;
      var onDisk := |world.state.files[temporaryPath]| + spilled;
      ConcatAssociative(world.state.files[temporaryPath], writer.value, accepted);
      world.Perform(FileSystem.Write(id, accepted, onDisk));
      writer := Some(buffered[spilled..]);
    }

    /** Ends the output without publishing it, unless it was committed. Dropping the writer may
        still flush part of its buffer to the temporary file before that is removed. */
    method Drop()
      requires Is(Writing) || Is(Failed) || Is(Committed)
      modifies this, world
      ensures world.Valid()
      ensures Staged(old(world.history), old(world.state), world.history, world.state, id, temporaryPath)
      ensures old(Is(Committed)) ==>
        Is(Committed) && world.state == old(world.state) && world.faults == old(world.faults)
      ensures !old(Is(Committed)) ==>
        if world.faults == old(world.faults)
        then Is(Removed)
        else Is(Leaked) && world.faults == old(world.faults) + 1
    {
      hide IsTemporary, TempPath, IsStdio, Inv, Published, Run;
      if !committed {
        if writer.Some? {
          Spill([]);
          writer := None;
        }
        RemoveTemporary();
      }
    }

    method RemoveTemporary()
      requires Refers() && InPhase(world.state, id, {Writing, Failed}) && writer.None? && !committed
      modifies world
      ensures world.Valid()
      ensures Staged(old(world.history), old(world.state), world.history, world.state, id, temporaryPath)
      ensures if world.faults == old(world.faults)
              then Is(Removed)
              else Is(Leaked) && world.faults == old(world.faults) + 1
    {
      hide IsTemporary, TempPath, IsStdio, Inv, Published, Run;
      var failed := world.Fault();
      if failed {
        world.Perform(Leak(id));
      } else {
        world.Perform(Discard(id));
      }
    }

    /** A failed step of commit: nothing is published, and the output is dropped. */
    method Abort()
      requires Refers() && InPhase(world.state, id, {Writing, Flushed, Synced, Emitted}) && writer.None? && !committed
      modifies this, world
      ensures world.Valid()
      ensures Staged(old(world.history), old(world.state), world.history, world.state, id, temporaryPath)
      ensures if world.faults == old(world.faults) then Is(Removed) else Is(Leaked)
      ensures world.faults >= old(world.faults)
    {
      hide IsTemporary, TempPath, IsStdio, Inv, Published, Run;
      world.Perform(Fail(id));
      Drop();
    }

    /** Flushes and synchronises; afterwards the temporary file holds everything written. */
    method Persist() returns (r: Result<()>)
      requires Is(Writing)
      modifies this, world
      ensures world.Valid()
      ensures Staged(old(world.history), old(world.state), world.history, world.state, id, temporaryPath)
      ensures r.Ok? ==>
        && Is(Synced) && Contents() == old(Contents()) && world.faults == old(world.faults)
        && world.state.files[temporaryPath] == Contents()
      ensures r.Err? ==> r.error == Error.Io && Ended(old(world.faults))
    {
      hide IsTemporary, TempPath, IsStdio, Inv, Published, Run;
      r := FlushWriter();
      if r.Err? {
        return;
      }
      var failed := world.Fault();
      if failed {
        Abort();
        return Err(Error.Io);
      }
      world.Perform(Sync(id));
      r := Ok(());
    }

    method FlushWriter() returns (r: Result<()>)
      requires Is(Writing)
      modifies this, world
      ensures world.Valid()
      ensures Staged(old(world.history), old(world.state), world.history, world.state, id, temporaryPath)
      ensures r.Ok? ==>
        && Is(Flushed) && Contents() == old(Contents()) && world.faults == old(world.faults)
        && world.state.files[temporaryPath] == Contents()
      ensures r.Err? ==> r.error == Error.Io && Ended(old(world.faults))
    {
      hide IsTemporary, TempPath, IsStdio, Inv, Published, Run;
      var failed := world.Fault();
      if failed {
        Spill([]);
        writer := None;
        Abort();
        return Err(Error.Io);
      }
      writer := None;
      world.Perform(Flush(id));
      r := Ok(());
    }

    /** The output is over after a fault; its temporary file is left only if a second one occurred. */
    ghost predicate Ended(faults: nat)
      reads this, world
    {
      world.faults > faults && if world.faults == faults + 1 then Is(Removed) else Is(Leaked)
    }

    /** Publishes the output: onto the destination in one rename, or by copying to standard output. */
    method Commit() returns (r: Result<()>)
      requires Is(Writing)
      modifies this, world
      ensures world.Valid()
      ensures Delivery(old(world.history), old(world.state), world.history, world.state, id, destination,
                       old(Contents()))
      ensures r.Ok? ==>
        && Is(Committed) && world.faults == old(world.faults)
        && Delivered(old(world.state), world.state, destination, temporaryPath, old(Contents()))
      ensures r.Err? ==>
        && r.error == Error.Io && Ended(old(world.faults))
        && SameBut(old(world.state).files, world.state.files, temporaryPath)
        && Published(world.state) == Published(old(world.state))
        && (!IsStdio(destination) ==> world.state.stdout == old(world.state).stdout)
    {
      hide IsTemporary, TempPath, IsStdio, Inv, Published, Run;
      r := Persist();
      if r.Err? {
        return;
      }
      ghost var h, s := world.history, world.state;
      if IsStdio(destination) {
        r := CopyToStdout();
      } else {
        r := Rename();
      }
      StagedThenDelivery(old(world.history), old(world.state), h, s, world.history, world.state, id, temporaryPath,
                         destination, old(Contents()));
    }

    method Rename() returns (r: Result<()>)
      requires Is(Synced) && world.state.files[temporaryPath] == Contents() && !IsStdio(destination)
      modifies this, world
      ensures world.Valid()
      ensures Delivery(old(world.history), old(world.state), world.history, world.state, id, destination,
                       old(Contents()))
      ensures r.Ok? ==>
        && Is(Committed) && world.faults == old(world.faults)
        && Delivered(old(world.state), world.state, destination, temporaryPath, old(Contents()))
      ensures r.Err? ==>
        && r.error == Error.Io && Ended(old(world.faults)) && Quiet(old(world.state), world.state)
        && SameBut(old(world.state).files, world.state.files, temporaryPath)
    {
      hide IsTemporary, TempPath, IsStdio, Inv, Published, Run;
      var failed := world.Fault();
      if failed {
        Abort();
        return Err(Error.Io);
      }
      DestinationIsNotTemporary();
      world.Perform(Publish(id));
      committed := true;
      Drop();
      r := Ok(());
    }

    lemma DestinationIsNotTemporary()
      requires Refers()
      ensures !IsTemporary(world.state.process, destination) && destination != temporaryPath
    {
      hide IsTemporary, TempPath, Inv;
      RunKeepsInv(world.history, |world.history| - 1);
      InvAt(world.state);
      TemporaryIsTemporary(world.state, id);
    }

    method CopyToStdout() returns (r: Result<()>)
      requires Is(Synced) && world.state.files[temporaryPath] == Contents() && IsStdio(destination)
      modifies this, world
      ensures world.Valid()
      ensures Delivery(old(world.history), old(world.state), world.history, world.state, id, destination,
                       old(Contents()))
      ensures r.Ok? ==>
        && Is(Committed) && world.faults == old(world.faults)
        && Delivered(old(world.state), world.state, destination, temporaryPath, old(Contents()))
      ensures r.Err? ==>
        && r.error == Error.Io && Ended(old(world.faults))
        && SameBut(old(world.state).files, world.state.files, temporaryPath)
        && Published(world.state) == Published(old(world.state))
    {
      hide IsTemporary, TempPath, IsStdio, Inv, Published, Run;
      var failed := world.Fault();
      if failed {
        Abort();
        return Err(Error.Io);
      }
      r := CopyAll();
      if r.Err? {
        return;
      }
      r := RemoveAfterCopy();
    }

    /** Copies the whole temporary file to standard output; a failure may leave part of it there. */
    method CopyAll() returns (r: Result<()>)
      requires Is(Synced) && world.state.files[temporaryPath] == Contents() && IsStdio(destination)
      modifies this, world
      ensures world.Valid()
      ensures Delivery(old(world.history), old(world.state), world.history, world.state, id, destination,
                       old(Contents()))
      ensures Published(world.state) == Published(old(world.state))
      ensures r.Ok? ==>
        && Is(Emitted) && world.faults == old(world.faults) && world.state.files == old(world.state).files
        && world.state.stdout == old(world.state).stdout + old(Contents())
      ensures r.Err? ==>
        r.error == Error.Io && Ended(old(world.faults))
          && SameBut(old(world.state).files, world.state.files, temporaryPath)
    {
      hide IsTemporary, TempPath, IsStdio, Inv, Published, Run;
      var failed := world.Fault();
      if failed {
        FailCopy();
        return Err(Error.Io);
      }
      world.Perform(Emit(id, |world.state.files[temporaryPath]|));
      r := Ok(());
    }

    method FailCopy()
      requires Is(Synced) && world.state.files[temporaryPath] == Contents() && IsStdio(destination)
      modifies this, world
      ensures world.Valid()
      ensures Delivery(old(world.history), old(world.state), world.history, world.state, id, destination,
                       old(Contents()))
      ensures Published(world.state) == Published(old(world.state))
      ensures SameBut(old(world.state).files, world.state.files, temporaryPath)
      ensures if world.faults == old(world.faults) then Is(Removed) else Is(Leaked) && world.faults > old(world.faults)
    {
      hide IsTemporary, TempPath, IsStdio, Inv, Published, Run;
      EmitPart();
      ghost var h, s := world.history, world.state;
      Drop();
      DeliveryThenStaged(old(world.history), old(world.state), h, s, world.history, world.state, id, temporaryPath,
                         destination, old(Contents()));
    }

    method EmitPart()
      requires Is(Synced) && world.state.files[temporaryPath] == Contents() && IsStdio(destination)
      modifies world
      ensures Is(Failed) && world.faults == old(world.faults) && world.state.files == old(world.state).files
      ensures Delivery(old(world.history), old(world.state), world.history, world.state, id, destination,
                       old(Contents()))
      ensures Published(world.state) == Published(old(world.state))
    {
      hide IsTemporary, TempPath, IsStdio, Inv, Published, Run;
      var length := |world.state.files[temporaryPath]|;
      var count: nat :| count <= length;
      world.Perform(Emit(id, count));
      if count == length {
        world.Perform(Fail(id));
      }
    }

    method RemoveAfterCopy() returns (r: Result<()>)
      requires Is(Emitted)
      modifies this, world
      ensures world.Valid()
      ensures Staged(old(world.history), old(world.state), world.history, world.state, id, temporaryPath)
      ensures r.Ok? ==>
        && Is(Committed) && world.faults == old(world.faults)
        && world.state.files == old(world.state).files - {temporaryPath}
      ensures r.Err? ==> r.error == Error.Io && Ended(old(world.faults))
    {
      hide IsTemporary, TempPath, IsStdio, Inv, Published, Run;
      var failed := world.Fault();
      if failed {
        Abort();
        return Err(Error.Io);
      }
      world.Perform(Unlink(id));
      committed := true;
      Drop();
      r := Ok(());
    }
  }

  /** `bytes` have been delivered in full, and the temporary file is gone. */
  ghost predicate Delivered(s: State, s': State, destination: Path, temporaryPath: Path, bytes: Bytes) {
    if IsStdio(destination)
    then s'.files == s.files - {temporaryPath} && Published(s') == Published(s) && s'.stdout == s.stdout + bytes
    else
      && s'.files == (s.files - {temporaryPath})[destination := bytes] && s'.stdout == s.stdout
      && Published(s') == Published(s)[destination := bytes]
  }
}
