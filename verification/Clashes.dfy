/** What it takes of the destinations that outputs do not publish each other's contents: none of
    them may be the path of a temporary file for another. */
module Clashes {
  import opened TempNames
  import opened FileSystem
  import opened Interleaving

  /** A process that has not created any output. */
  predicate Launched(s: State) {
    s.counter == 0 && s.drawn == {} && s.outputs == []
  }

  /** Destinations and standard output hold nothing but what single outputs were given. */
  ghost predicate Faithful(start: State, s: State) {
    (forall p :: p in s.process.destinations ==> Whole(start, s, p)) && StdoutWhole(start, s)
  }

  ghost predicate AlwaysFaithful(process: Process) {
    forall h: seq<State>, k: nat :: Steps(h) && k < |h| && Launched(h[0]) && h[0].process == process ==>
      Faithful(h[0], h[k])
  }

  /** Runs of the unrestricted protocol publish only what single outputs were given, if and only if
      no destination is the path of a temporary file for another. */
  lemma FaithfulExactlyIfClashFree(process: Process)
    ensures AlwaysFaithful(process) <==> ClashFree(process)
  {
    hide IsTemporary;
    if ClashFree(process) {
      forall h: seq<State>, k: nat | Steps(h) && k < |h| && Launched(h[0]) && h[0].process == process
        ensures Faithful(h[0], h[k])
      {
        ClashFreeIsFaithful(h, k);
      }
    } else {
      var d :| d in process.destinations && IsTemporary(process, d);
      var destination, sequence: nat := ClashWitness(process, d);
      var h := MixUp(process, destination, sequence, d);
      assert !Faithful(h[0], h[|h| - 1]);
    }
  }

  lemma ClashWitness(process: Process, p: Path) returns (destination: Path, sequence: nat)
    requires IsTemporary(process, p)
    ensures destination in process.destinations && p == TempPath(process, destination, sequence)
  {
    destination, sequence :| destination in process.destinations && p == TempPath(process, destination, sequence);
  }

  lemma ClashFreeIsFaithful(h: seq<State>, k: nat)
    requires Steps(h) && k < |h| && Launched(h[0]) && ClashFree(h[0].process)
    ensures Faithful(h[0], h[k])
  {
    hide IsTemporary, Whole, StdoutWhole;
    assert Inv(h[0]);
    StepsKeepProcess(h, k);
    forall p | p in h[k].process.destinations
      ensures Whole(h[0], h[k], p)
    {
      DestinationsAreWhole(h, k, p);
    }
    StdoutIsWhole(h, k);
  }

  // ---- The run that mixes up two outputs ----

  lemma Extend(h: seq<State>, e: Event) returns (h': seq<State>)
    requires Steps(h) && Enabled(h[|h| - 1], e)
    ensures Steps(h') && h'[0] == h[0] && h'[|h'| - 1] == Apply(h[|h| - 1], e)
  {
    hide Enabled, Apply;
    var s := h[|h| - 1];
    assert Next(s, Apply(s, e));
    h' := h + [Apply(s, e)];
  }

  function Below(n: nat): (r: set<nat>)
    ensures forall i: nat :: i in r <==> i < n
  {
    if n == 0 then {} else Below(n - 1) + {n - 1}
  }

  lemma {:induction false} DrawMany(process: Process, n: nat) returns (h: seq<State>)
    ensures Steps(h) && h[0] == State(process, map[], 0, {}, [], [])
    ensures h[|h| - 1] == State(process, map[], n, Below(n), [], [])
  {
    if n == 0 {
      h := [State(process, map[], 0, {}, [], [])];
    } else {
      h := DrawMany(process, n - 1);
      h := Extend(h, Draw);
    }
  }

  /** One output for `destination`, and one whose destination `d` is the first one's temporary file. */
  lemma CreateBoth(process: Process, destination: Path, sequence: nat, d: Path) returns (h: seq<State>)
    requires destination in process.destinations && d in process.destinations
    requires d == TempPath(process, destination, sequence)
    ensures Steps(h) && Launched(h[0]) && h[0].process == process && h[0].files == map[] && h[0].stdout == []
    ensures var s, t := h[|h| - 1], TempPath(process, d, sequence + 1);
            && s.process == process && s.files == map[d := [], t := []] && s.stdout == []
            && s.outputs == [Output(destination, sequence, [], Writing), Output(d, sequence + 1, [], Writing)]
  {
    hide TempPath, IsStdio;
    h := DrawMany(process, sequence + 2);
    h := Extend(h, Create(destination, sequence));
    TempPathIsNotDestination(process, d, sequence + 1);
    h := Extend(h, Create(d, sequence + 1));
  }

  /** The second output is given one byte and both are ready to be published. */
  lemma FillBoth(process: Process, destination: Path, sequence: nat, d: Path) returns (h: seq<State>)
    requires destination in process.destinations && d in process.destinations
    requires d == TempPath(process, destination, sequence)
    ensures Steps(h) && Launched(h[0]) && h[0].process == process && h[0].files == map[] && h[0].stdout == []
    ensures var s, t := h[|h| - 1], TempPath(process, d, sequence + 1);
            && s.process == process && s.files == map[d := [], t := [1]] && s.stdout == []
            && s.outputs == [Output(destination, sequence, [], Synced), Output(d, sequence + 1, [1], Synced)]
  {
    hide TempPath, IsStdio;
    h := CreateBoth(process, destination, sequence, d);
    TempPathIsNotDestination(process, d, sequence + 1);
    var t := TempPath(process, d, sequence + 1);
    var first, second := Output(destination, sequence, [], Writing), Output(d, sequence + 1, [1], Writing);
    h := Extend(h, Write(1, [1], 1));
    assert [] + second.written == second.written;
    assert h[|h| - 1].outputs == [first, second];
    h := Extend(h, Flush(1));
    h := Extend(h, Sync(1));
    assert h[|h| - 1].outputs == [first, second.(phase := Synced)];
    h := Extend(h, Flush(0));
    h := Extend(h, Sync(0));
    assert h[|h| - 1].outputs == [first.(phase := Synced), second.(phase := Synced)];
    assert h[|h| - 1].files == map[d := [], t := [1]];
  }

  /** A run at whose end the first output has delivered what the second was given. */
  lemma MixUp(process: Process, destination: Path, sequence: nat, d: Path) returns (h: seq<State>)
    requires destination in process.destinations && d in process.destinations
    requires d == TempPath(process, destination, sequence)
    ensures Steps(h) && Launched(h[0]) && h[0].process == process
    ensures !Faithful(h[0], h[|h| - 1])
  {
    hide TempPath, IsStdio, Faithful;
    TempPathIsNotStdio(process, destination, sequence);
    TempPathIsNotDestination(process, destination, sequence);
    TempPathIsNotDestination(process, d, sequence + 1);
    h := FillBoth(process, destination, sequence, d);
    h := Extend(h, Publish(1));
    if IsStdio(destination) {
      h := Extend(h, Emit(0, 1));
      WrongBytesCopied(h[0], h[|h| - 1], destination);
    } else {
      h := Extend(h, Publish(0));
      WrongBytesPublished(h[0], h[|h| - 1], destination, d);
    }
  }

  lemma WrongBytesPublished(start: State, s: State, destination: Path, d: Path)
    requires start.files == map[] && destination in s.process.destinations && destination != d
    requires destination in s.files && s.files[destination] == [1] && |s.outputs| == 2
    requires s.outputs[0].written == [] && s.outputs[1].destination == d
    ensures !Faithful(start, s)
  {
    hide StdoutWhole;
    assert !Whole(start, s, destination);
  }

  lemma WrongBytesCopied(start: State, s: State, destination: Path)
    requires start.stdout == [] && s.stdout == [1] && |s.outputs| == 2
    requires s.outputs[0].written == [] && !IsStdio(s.outputs[1].destination)
    ensures !Faithful(start, s)
  {
    hide IsStdio, Whole;
    forall ms | EmissionsOf(s, ms)
      ensures Transcript(s, ms) == []
    {
      NothingToCopy(s, ms);
    }
  }

  lemma {:induction false} NothingToCopy(s: State, ms: seq<Emission>)
    requires |s.outputs| == 2 && s.outputs[0].written == [] && !IsStdio(s.outputs[1].destination)
    requires forall i :: 0 <= i < |ms| ==> EmissionOf(s, ms[i])
    ensures Transcript(s, ms) == []
  {
    hide IsStdio;
    if ms != [] {
      NothingToCopy(s, ms[..|ms| - 1]);
      assert EmissionOf(s, ms[|ms| - 1]);
    }
  }
}
