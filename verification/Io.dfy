/** Input streams and transactional output files. */
module Io {
  import opened Common
  import opened TempNames
  import opened FileSystem

  /** Nothing that others may rely on has changed. */
  ghost predicate Quiet(s: State, s': State) {
    Published(s') == Published(s) && s'.stdout == s.stdout
  }

  /** Either nothing visible has happened yet, or `bytes` have been delivered to `destination`: to
      a file all at once, to standard output from the front. */
  ghost predicate Delivering(s: State, s': State, destination: Path, bytes: Bytes) {
    if IsStdio(destination)
    then Published(s') == Published(s) && s.stdout <= s'.stdout <= s.stdout + bytes
    else s'.stdout == s.stdout && (Published(s') == Published(s) || Published(s') == Published(s)[destination := bytes])
  }

  ghost predicate AllQuiet(h: seq<State>, from: nat, s: State) {
    forall i :: from <= i < |h| ==> Quiet(s, h[i])
  }

  ghost predicate AllDelivering(h: seq<State>, from: nat, s: State, destination: Path, bytes: Bytes) {
    forall i :: from <= i < |h| ==> Delivering(s, h[i], destination, bytes)
  }

  lemma QuietTwice(s: State, s1: State, s2: State)
    requires Quiet(s, s1) && Quiet(s1, s2)
    ensures Quiet(s, s2)
  {
  }

  lemma QuietExtends(h: seq<State>, h': seq<State>, from: nat, s: State, s1: State)
    requires from <= |h| && h <= h'
    requires AllQuiet(h, from, s) && Quiet(s, s1) && AllQuiet(h', |h|, s1)
    ensures AllQuiet(h', from, s)
  {
    forall i | from <= i < |h'|
      ensures Quiet(s, h'[i])
    {
      if i < |h| {
        assert h'[i] == h[i];
      }
    }
  }

  lemma DeliveringExtends(h: seq<State>, h': seq<State>, from: nat, s: State, s1: State, destination: Path,
                          bytes: Bytes)
    requires from <= |h| && h <= h'
    requires AllQuiet(h, from, s) && Quiet(s, s1) && AllDelivering(h', |h|, s1, destination, bytes)
    ensures AllDelivering(h', from, s, destination, bytes)
  {
    forall i | from <= i < |h'|
      ensures Delivering(s, h'[i], destination, bytes)
    {
      if i < |h| {
        assert h'[i] == h[i] && Quiet(s, h[i]);
      }
    }
  }

  /** All outputs but `id`, and their temporary files, are as before. */
  ghost predicate OthersUntouched(s: State, s': State, id: nat) {
    && s'.process == s.process && |s'.outputs| >= |s.outputs|
    && forall j :: 0 <= j < |s.outputs| && j != id ==>
         s'.outputs[j] == s.outputs[j] && SameAt(s.files, s'.files, Temporary(s, j))
  }

  /** The operating system as this process sees it. Any operation may fail; `faults` counts the
      failures, so that what happens without any can be stated. Reads may also be interrupted;
      `interruptions` is how often that is still going to happen. */
  class World {
    const stdin: Bytes
    var state: State
    var faults: nat
    var interruptions: nat
    ghost var history: seq<State>

    ghost predicate Valid()
      reads this
    {
      Run(history) && history[|history| - 1] == state
    }

    constructor (process: Process, files: map<Path, Bytes>, stdin: Bytes, interruptions: nat)
      requires ClashFree(process)
      ensures Valid() && state == State(process, files, 0, {}, [], []) && history == [state] && faults == 0
      ensures this.stdin == stdin && this.interruptions == interruptions
    {
      this.stdin, this.interruptions := stdin, interruptions;
      state := State(process, files, 0, {}, [], []);
      faults := 0;
      history := [State(process, files, 0, {}, [], [])];
    }

    method Perform(e: Event)
      requires Valid() && Enabled(state, e)
      modifies this`state, this`history
      ensures Valid() && Inv(old(state)) && state == Apply(old(state), e) && history == old(history) + [state]
      ensures Published(state) == PublishedAfter(old(state), e)
      ensures forall j :: 0 <= j < |old(state).outputs| && !ActsOn(e, j) ==>
        j < |state.outputs| && state.outputs[j] == old(state).outputs[j]
        && SameAt(old(state).files, state.files, Temporary(old(state), j))
    {
      hide IsTemporary, TempPath, IsStdio, Inv, Published, PublishedAfter;
      RunKeepsInv(history, |history| - 1);
      StepRefines(state, e);
      StepKeepsInv(state, e);
      InvAt(state);
      InvAt(Apply(state, e));
      forall j | 0 <= j < |state.outputs| && !ActsOn(e, j)
        ensures j < |Apply(state, e).outputs| && Apply(state, e).outputs[j] == state.outputs[j]
        ensures SameAt(state.files, Apply(state, e).files, Temporary(state, j))
      {
        StepKeepsOtherOutput(state, e, j);
        assert Temporary(Apply(state, e), j) == Temporary(state, j);
      }
      assert Next(state, Apply(state, e));
      state := Apply(state, e);
      history := history + [state];
    }

    method Fault() returns (failed: bool)
      modifies this`faults
      ensures faults == old(faults) + if failed then 1 else 0
    {
      failed := *;
      if failed {
        faults := faults + 1;
      }
    }

    /** Reads a whole file; None when there is none. */
    method ReadFile(path: Path) returns (r: Result<Option<Bytes>>)
      modifies this`faults
      ensures r.Ok? ==>
        faults == old(faults) && r.value == if path in state.files then Some(state.files[path]) else None
      ensures r.Err? ==> faults == old(faults) + 1 && r.error == Error.Io
    {
      var failed := Fault();
      if failed {
        return Err(Error.Io);
      }
      r := Ok(if path in state.files then Some(state.files[path]) else None);
    }
  }

  /** The random number generator: a stream of bytes of which each is handed out once. */
  class RandomSource {
    const bytes: nat -> byte
    var drawn: nat

    constructor (bytes: nat -> byte)
      ensures this.bytes == bytes && drawn == 0
    {
      this.bytes, drawn := bytes, 0;
    }

    function Slice(from: nat, n: nat): (r: Bytes)
      ensures |r| == n
    {
      seq(n, i requires 0 <= i < n => bytes(from + i))
    }

    method Draw(n: nat) returns (r: Bytes)
      modifies this`drawn
      ensures r == Slice(old(drawn), n) && drawn == old(drawn) + n
    {
      r := Slice(drawn, n);
      drawn := drawn + n;
    }
  }

  datatype ReadResult = Count(count: nat) | Interrupted | Unreadable

  /** An open input: the file as it was when it was opened, or standard input. */
  class Input {
    const data: Bytes
    const size: Option<nat>
    var pos: nat

    ghost predicate Valid()
      reads this
    {
      pos <= |data| && (size.Some? ==> size.value == |data|)
    }

    constructor (data: Bytes, sized: bool)
      ensures Valid() && this.data == data && pos == 0 && size == if sized then Some(|data|) else None
    {
      this.data := data;
      size := if sized then Some(|data|) else None;
      pos := 0;
    }

    /** One system call to read into `buffer[from..]`: any positive number of bytes that fits, and 0
        only at the end of the input, unless it is interrupted or fails. */
    method Attempt(world: World, buffer: array<byte>, from: nat) returns (r: ReadResult)
      requires Valid() && from < buffer.Length
      modifies this`pos, buffer, world`faults, world`interruptions
      ensures Valid() && buffer[..from] == old(buffer[..from])
      ensures r.Count? ==>
        && pos == old(pos) + r.count && from + r.count <= buffer.Length
        && buffer[from..from + r.count] == data[old(pos)..pos]
        && (r.count == 0 <==> old(pos) == |data|)
      ensures r.Interrupted? ==> pos == old(pos)
      ensures world.interruptions == old(world.interruptions) - if r.Interrupted? then 1 else 0
      ensures world.faults == old(world.faults) + if r.Unreadable? then 1 else 0
    {
      var interrupted := *;
      if interrupted && world.interruptions > 0 {
        world.interruptions := world.interruptions - 1;
        return Interrupted;
      }
      var failed := world.Fault();
      if failed {
        return Unreadable;
      }
      if pos == |data| {
        return Count(0);
      }
      var count: nat :| 1 <= count <= |data| - pos && from + count <= buffer.Length;
      forall i | 0 <= i < count {
        buffer[from + i] := data[pos + i];
      }
      pos := pos + count;
      r := Count(count);
    }

    /** One read whose interruption is an error like any other. */
    method Read(world: World, buffer: array<byte>, from: nat) returns (r: Result<nat>)
      requires Valid() && from < buffer.Length
      modifies this`pos, buffer, world`faults, world`interruptions
      ensures Valid() && buffer[..from] == old(buffer[..from])
      ensures r.Ok? ==>
        && pos == old(pos) + r.value && from + r.value <= buffer.Length
        && buffer[from..from + r.value] == data[old(pos)..pos]
        && (r.value == 0 <==> old(pos) == |data|)
        && world.faults == old(world.faults)
      ensures r.Err? ==> r.error == Error.Io && world.faults == old(world.faults) + 1
    {
      var attempt := Attempt(world, buffer, from);
      match attempt
      case Count(count) => r := Ok(count);
      case Interrupted =>
        world.faults := world.faults + 1;
        r := Err(Error.Io);
      case Unreadable => r := Err(Error.Io);
    }

    /** Fills the whole buffer by repeated reads, trying again after an interruption. The result is
        false at a premature end of input. */
    method ReadExact(world: World, buffer: array<byte>) returns (r: Result<bool>)
      requires Valid()
      modifies this`pos, buffer, world`faults, world`interruptions
      ensures Valid()
      ensures r.Ok? ==> world.faults == old(world.faults) && (r.value <==> old(pos) + buffer.Length <= |data|)
      ensures r.Ok? && r.value ==> pos == old(pos) + buffer.Length && buffer[..] == data[old(pos)..pos]
      ensures r.Err? ==> r.error == Error.Io && world.faults > old(world.faults)
    {
      var filled := 0;
      while filled < buffer.Length
        invariant Valid() && filled <= buffer.Length && pos == old(pos) + filled
        invariant buffer[..filled] == data[old(pos)..pos]
        invariant world.faults == old(world.faults)
        decreases world.interruptions, buffer.Length - filled
      {
        ghost var start := pos;
        var attempt := Attempt(world, buffer, filled);
        match attempt
        case Unreadable => return Err(Error.Io);
        case Interrupted =>
        case Count(count) =>
          if count == 0 {
            return Ok(false);
          }
          assert buffer[..filled + count] == buffer[..filled] + buffer[filled..filled + count];
          assert data[old(pos)..pos] == data[old(pos)..start] + data[start..pos];
          filled := filled + count;
      }
      assert buffer[..] == buffer[..filled];
      r := Ok(true);
    }
  }

  method OpenInput(world: World, path: Path) returns (r: Result<Input>)
    modifies world`faults
    ensures r.Ok? ==> fresh(r.value) && r.value.Valid() && r.value.pos == 0 && world.faults == old(world.faults)
    ensures r.Ok? && IsStdio(path) ==> r.value.data == world.stdin && r.value.size == None
    ensures r.Ok? && !IsStdio(path) ==>
      path in world.state.files && r.value.data == world.state.files[path] && r.value.size == Some(|r.value.data|)
    ensures r.Err? ==> r.error == Error.Io
    ensures r.Err? ==>
      if world.faults == old(world.faults) then !IsStdio(path) && path !in world.state.files
        else world.faults > old(world.faults)
  {
    if IsStdio(path) {
      var stdin := new Input(world.stdin, false);
      return Ok(stdin);
    }
    var contents := world.ReadFile(path);
    if contents.Err? || contents.value.None? {
      return Err(Error.Io);
    }
    var failed := world.Fault();
    if failed {
      return Err(Error.Io);
    }
    var file := new Input(contents.value.value, true);
    r := Ok(file);
  }
}
