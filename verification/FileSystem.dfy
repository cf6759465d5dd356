/** The protocol of all transactional outputs of one process, as a state machine over the file
    system. Steps of any number of outputs interleave, every step may fail, and the process may
    stop after any step. */
module FileSystem {
  import opened Common
  import opened TempNames

  /** Removed: dropped, and its temporary file is gone. Leaked: dropped, but removal failed. */
  datatype Phase = Writing | Flushed | Synced | Emitted | Failed | Committed | Removed | Leaked

  /** `written` is everything the output's writer has accepted. */
  datatype Output = Output(destination: Path, sequence: nat, written: Bytes, phase: Phase)

  /** `drawn` holds counter values that have been handed out but not used for a file. */
  datatype State = State(
    process: Process,
    files: map<Path, Bytes>,
    counter: nat,
    drawn: set<nat>,
    stdout: Bytes,
    outputs: seq<Output>)

  function Temporary(s: State, id: nat): (r: Path)
    requires id < |s.outputs|
  {
    TempPath(s.process, s.outputs[id].destination, s.outputs[id].sequence)
  }

  datatype Event =
    | Draw                                          // fetch_add on the shared counter
    | Create(destination: Path, sequence: nat)      // create_new succeeded
    | Write(id: nat, accepted: Bytes, onDisk: nat)  // the buffer takes bytes, some reach the file
    | Flush(id: nat)
    | Sync(id: nat)
    | Fail(id: nat)                                 // a step of commit failed
    | Publish(id: nat)                              // rename onto the destination
    | Emit(id: nat, count: nat)                     // copy to standard output
    | Unlink(id: nat)                               // remove after copying
    | Discard(id: nat)                              // removed on drop
    | Leak(id: nat)                                 // removal on drop failed
    | Delete(path: Path)                            // a published file is removed

  predicate InPhase(s: State, id: nat, phases: set<Phase>) {
    id < |s.outputs| && s.outputs[id].phase in phases && Temporary(s, id) in s.files
  }

  ghost predicate Enabled(s: State, e: Event) {
    match e
    case Draw => true
    case Create(destination, sequence) =>
      && sequence in s.drawn && destination in s.process.destinations
      && TempPath(s.process, destination, sequence) !in s.files
    case Write(id, accepted, onDisk) =>
      && InPhase(s, id, {Writing, Failed})
      && (s.outputs[id].phase == Failed ==> accepted == [])
      && |s.files[Temporary(s, id)]| <= onDisk <= |s.outputs[id].written + accepted|
    case Flush(id) => InPhase(s, id, {Writing})
    case Sync(id) => InPhase(s, id, {Flushed})
    case Fail(id) => InPhase(s, id, {Writing, Flushed, Synced, Emitted})
    case Publish(id) => InPhase(s, id, {Synced}) && !IsStdio(s.outputs[id].destination)
    case Emit(id, count) =>
      && InPhase(s, id, {Synced}) && IsStdio(s.outputs[id].destination)
      && count <= |s.files[Temporary(s, id)]|
    case Unlink(id) => InPhase(s, id, {Emitted})
    case Discard(id) => InPhase(s, id, {Writing, Failed})
    case Leak(id) => InPhase(s, id, {Writing, Failed})
    case Delete(path) => path in s.files && path in s.process.destinations
  }

  function SetPhase(s: State, id: nat, phase: Phase): (r: State)
    requires id < |s.outputs|
  {
    s.(outputs := s.outputs[id := s.outputs[id].(phase := phase)])
  }

  function Apply(s: State, e: Event): (r: State)
    requires Enabled(s, e)
  {
    match e
    case Draw => s.(counter := s.counter + 1, drawn := s.drawn + {s.counter})
    case Create(destination, sequence) =>
      s.(drawn := s.drawn - {sequence},
         files := s.files[TempPath(s.process, destination, sequence) := []],
         outputs := s.outputs + [Output(destination, sequence, [], Writing)])
    case Write(id, accepted, onDisk) =>
      var written := s.outputs[id].written + accepted;
      s.(files := s.files[Temporary(s, id) := written[..onDisk]],
         outputs := s.outputs[id := s.outputs[id].(written := written)])
    case Flush(id) =>
      SetPhase(s, id, Flushed).(files := s.files[Temporary(s, id) := s.outputs[id].written])
    case Sync(id) => SetPhase(s, id, Synced)
    case Fail(id) => SetPhase(s, id, Failed)
    case Publish(id) =>
      var t := Temporary(s, id);
      SetPhase(s, id, Committed).(files := (s.files - {t})[s.outputs[id].destination := s.files[t]])
    case Emit(id, count) =>
      var bytes := s.files[Temporary(s, id)];
      SetPhase(s, id, if count == |bytes| then Emitted else Failed).(stdout := s.stdout + bytes[..count])
    case Unlink(id) => SetPhase(s, id, Committed).(files := s.files - {Temporary(s, id)})
    case Discard(id) => SetPhase(s, id, Removed).(files := s.files - {Temporary(s, id)})
    case Leak(id) => SetPhase(s, id, Leaked)
    case Delete(path) => s.(files := s.files - {path})
  }

  /** Every output from number `from` on has been committed or dropped. */
  predicate AllOver(s: State, from: nat) {
    forall id :: from <= id < |s.outputs| ==> s.outputs[id].phase in {Committed, Removed, Leaked}
  }

  predicate Gone(phase: Phase) {
    phase == Committed || phase == Removed
  }

  /** The temporary file of one output: absent once the output is committed or removed, and until
      then a prefix of what was written, the whole of it from the flush on. */
  ghost predicate OutputInv(s: State, id: nat)
    requires id < |s.outputs|
  {
    var o := s.outputs[id];
    && o.sequence < s.counter && o.sequence !in s.drawn && o.destination in s.process.destinations
    && (Temporary(s, id) in s.files <==> !Gone(o.phase))
    && (!Gone(o.phase) ==> s.files[Temporary(s, id)] <= o.written)
    && (o.phase in {Flushed, Synced, Emitted} ==> s.files[Temporary(s, id)] == o.written)
  }

  ghost predicate Inv(s: State) {
    && ClashFree(s.process)
    && (forall k :: k in s.drawn ==> k < s.counter)
    && (forall id :: 0 <= id < |s.outputs| ==> OutputInv(s, id))
    && (forall i, j :: 0 <= i < j < |s.outputs| ==> s.outputs[i].sequence != s.outputs[j].sequence)
  }

  lemma TemporariesDiffer(s: State, i: nat, j: nat)
    requires Inv(s) && i < |s.outputs| && j < |s.outputs| && i != j
    ensures Temporary(s, i) != Temporary(s, j)
  {
    TempPathsDiffer(s.process, s.outputs[i].destination, s.outputs[i].sequence,
                    s.outputs[j].destination, s.outputs[j].sequence);
  }

  lemma TemporaryIsTemporary(s: State, id: nat)
    requires id < |s.outputs| && s.outputs[id].destination in s.process.destinations
    ensures IsTemporary(s.process, Temporary(s, id))
  {
    TempPathIsTemporary(s.process, s.outputs[id].destination, s.outputs[id].sequence);
  }

  /** Which output an event acts on, for all but Draw, Create and Delete. */
  predicate ActsOn(e: Event, id: nat) {
    match e
    case Draw => false
    case Create(_, _) => false
    case Delete(_) => false
    case _ => e.id == id
  }

  lemma StepKeepsOwnOutput(s: State, e: Event, id: nat)
    requires Inv(s) && Enabled(s, e) && ActsOn(e, id) && id < |s.outputs|
    ensures id < |Apply(s, e).outputs| && OutputInv(Apply(s, e), id)
  {
    hide IsTemporary, IsStdio, TempPath;
    assert OutputInv(s, id);
    TemporaryIsTemporary(s, id);
    var s' := Apply(s, e);
    assert Temporary(s', id) == Temporary(s, id);
  }

  lemma StepKeepsOtherOutput(s: State, e: Event, id: nat)
    requires Inv(s) && Enabled(s, e) && !ActsOn(e, id) && id < |s.outputs|
    ensures id < |Apply(s, e).outputs| && OutputInv(Apply(s, e), id)
    ensures Apply(s, e).outputs[id] == s.outputs[id]
    ensures Temporary(s, id) in s.files ==>
      Temporary(s, id) in Apply(s, e).files && Apply(s, e).files[Temporary(s, id)] == s.files[Temporary(s, id)]
  {
    hide IsTemporary, IsStdio, TempPath;
    assert OutputInv(s, id);
    TemporaryIsTemporary(s, id);
    var s' := Apply(s, e);
    assert Temporary(s', id) == Temporary(s, id);
    match e
    case Draw =>
    case Delete(_) =>
    case Create(destination, sequence) =>
      TempPathsDiffer(s.process, s.outputs[id].destination, s.outputs[id].sequence, destination, sequence);
    case _ =>
      assert OutputInv(s, e.id);
      TemporariesDiffer(s, id, e.id);
  }

  lemma StepKeepsInv(s: State, e: Event)
    requires Inv(s) && Enabled(s, e)
    ensures Inv(Apply(s, e))
  {
    hide IsTemporary, IsStdio, TempPath, OutputInv;
    var s' := Apply(s, e);
    forall id | 0 <= id < |s'.outputs|
      ensures OutputInv(s', id)
    {
      if id == |s.outputs| {
        NewOutputInv(s, e);
      } else if ActsOn(e, id) {
        StepKeepsOwnOutput(s, e, id);
      } else {
        StepKeepsOtherOutput(s, e, id);
      }
    }
    forall i, j | 0 <= i < j < |s'.outputs|
      ensures s'.outputs[i].sequence != s'.outputs[j].sequence
    {
      assert OutputInv(s, i);
      SequenceUnused(s, i);
    }
  }

  lemma SequenceUnused(s: State, id: nat)
    requires id < |s.outputs| && OutputInv(s, id)
    ensures s.outputs[id].sequence !in s.drawn
  {
  }

  lemma NewOutputInv(s: State, e: Event)
    requires Inv(s) && Enabled(s, e) && |Apply(s, e).outputs| > |s.outputs|
    ensures OutputInv(Apply(s, e), |s.outputs|)
  {
    hide IsTemporary, IsStdio, TempPath;
    assert e.Create?;
  }

  /** What other programs may rely on: every file that is not one of our temporary files. */
  ghost function Published(s: State): (r: map<Path, Bytes>) {
    NonTemporary(s.process, s.files)
  }

  ghost function NonTemporary(process: Process, files: map<Path, Bytes>): (r: map<Path, Bytes>) {
    map p | p in files && !IsTemporary(process, p) :: files[p]
  }

  /** The simple machine behind the protocol: a published file is only ever replaced as a whole,
      with everything its output was given, or deleted. Every other step is invisible. */
  ghost function PublishedAfter(s: State, e: Event): (r: map<Path, Bytes>)
    requires Enabled(s, e)
  {
    match e
    case Publish(id) => Published(s)[s.outputs[id].destination := s.outputs[id].written]
    case Delete(path) => Published(s) - {path}
    case _ => Published(s)
  }

  lemma StepRefines(s: State, e: Event)
    requires Inv(s) && Enabled(s, e)
    ensures Published(Apply(s, e)) == PublishedAfter(s, e)
  {
    hide IsTemporary, IsStdio, TempPath;
    match e
    case Draw =>
    case Delete(_) =>
    case Create(destination, sequence) => TempPathIsTemporary(s.process, destination, sequence);
    case _ =>
      assert OutputInv(s, e.id);
      TemporaryIsTemporary(s, e.id);
  }

  ghost predicate Next(s: State, s': State) {
    exists e :: Enabled(s, e) && s' == Apply(s, e)
  }

  /** The states after every step of the protocol. Crash points are the prefixes. */
  ghost predicate Steps(h: seq<State>) {
    |h| > 0 && forall i :: 0 < i < |h| ==> Next(h[i - 1], h[i])
  }

  ghost predicate Run(h: seq<State>) {
    Steps(h) && Inv(h[0])
  }

  lemma {:induction false} RunKeepsInv(h: seq<State>, k: nat)
    requires Run(h) && k < |h|
    ensures Inv(h[k])
  {
    hide Inv;
    if k > 0 {
      RunKeepsInv(h, k - 1);
      var e :| Enabled(h[k - 1], e) && h[k] == Apply(h[k - 1], e);
      StepKeepsInv(h[k - 1], e);
    }
  }

  lemma InvAt(s: State)
    requires Inv(s)
    ensures ClashFree(s.process)
    ensures forall id :: 0 <= id < |s.outputs| ==>
      OutputInv(s, id) && !IsTemporary(s.process, s.outputs[id].destination)
  {
    hide IsTemporary;
    forall id | 0 <= id < |s.outputs|
      ensures OutputInv(s, id) && !IsTemporary(s.process, s.outputs[id].destination)
    {
      assert OutputInv(s, id);
    }
  }

  ghost predicate SameAt(files: map<Path, Bytes>, files': map<Path, Bytes>, p: Path) {
    (p in files <==> p in files') && (p in files ==> files[p] == files'[p])
  }
}
