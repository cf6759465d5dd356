/** Publishing the two files of a key pair, with a staged backup and rollback. */
module KeypairGeneration {
  import opened Common
  import opened Primitives
  import opened KeyEstablishment
  import opened TempNames
  import opened FileSystem
  import opened Interleaving
  import opened Io
  import opened Transactional

  /** Where the pair goes and what the new files hold. */
  datatype Plan = Plan(publicPath: Path, privatePath: Path, keys: KeyPair)

  function PublicPath(directory: string): (r: Path) {
    Path(directory, Text("public_key.pem"))
  }

  function PrivatePath(directory: string): (r: Path) {
    Path(directory, Text("private_key.pem"))
  }

  lemma KeyPathsSpelled(directory: string)
    ensures PublicPath(directory).dir == PrivatePath(directory).dir == directory
    ensures PublicPath(directory).name == Text("public_key.pem")
    ensures PrivatePath(directory).name == Text("private_key.pem")
  {
  }

  lemma KeyPathsAreOrdinary(process: Process, directory: string)
    ensures !IsTemporary(process, PublicPath(directory)) && !IsStdio(PublicPath(directory))
    ensures !IsTemporary(process, PrivatePath(directory)) && !IsStdio(PrivatePath(directory))
    ensures PublicPath(directory) != PrivatePath(directory)
  {
    OtherSuffixIsNotTemporary(process, PublicPath(directory));
    OtherSuffixIsNotTemporary(process, PrivatePath(directory));
    assert |"public_key.pem"| == 14 && |"private_key.pem"| == 15;
  }

  function WithPublic(files: map<Path, Bytes>, plan: Plan): (r: map<Path, Bytes>) {
    files[plan.publicPath := plan.keys.publicKeyPem]
  }

  function WithBoth(files: map<Path, Bytes>, plan: Plan): (r: map<Path, Bytes>) {
    WithPublic(files, plan)[plan.privatePath := plan.keys.privateKeyPem]
  }

  /** What a crash may leave: both files old, or the new public file beside the old private one, or
      both new; every other file as it was, and no file partly written. */
  ghost predicate Consistent(s: State, s': State, plan: Plan) {
    && s'.stdout == s.stdout
    && (|| Published(s') == Published(s)
        || Published(s') == WithPublic(Published(s), plan)
        || Published(s') == WithBoth(Published(s), plan))
  }

  ghost predicate AllConsistent(h: seq<State>, from: nat, s: State, plan: Plan) {
    forall i :: from <= i < |h| ==> Consistent(s, h[i], plan)
  }

  /** Every other file that was there is as it was, whatever its name. */
  ghost predicate KeepsOthers(s: State, s': State, plan: Plan) {
    forall p :: p in s.files && p != plan.publicPath && p != plan.privatePath ==>
      p in s'.files && s'.files[p] == s.files[p]
  }

  ghost predicate OutOfNames(s: State, plan: Plan) {
    RunsOut(s, plan.privatePath) || RunsOut(s, plan.publicPath)
  }

  /** New temporary files are among those of the at most three outputs of the publication, and each
      of them took a failed operation of its own. */
  ghost predicate LeavesLittle(s: State, s': State, faults: nat) {
    && |s.outputs| <= |s'.outputs| <= |s.outputs| + 3
    && var left := LeftBehind(s', |s.outputs|, |s'.outputs|);
    && |left| <= 3 && |left| <= faults
    && forall p :: p in s'.files && p !in s.files && IsTemporary(s.process, p) ==> p in left
  }

  /** How publication may end. */
  ghost predicate PairOutcome(s: State, s': State, plan: Plan, r: Result<()>, faults: nat) {
    && s'.stdout == s.stdout && AllOver(s', |s.outputs|) && KeepsOthers(s, s', plan)
    && LeavesLittle(s, s', faults)
    && s'.process == s.process && s'.counter >= s.counter
    && match r
       case Ok(_) =>
         && Published(s') == WithBoth(Published(s), plan)
         && (faults == 0 ==> s'.files == WithBoth(s.files, plan))
       case Err(KeypairRollback(_, _)) => faults > 0 && Published(s') == WithPublic(Published(s), plan)
       case Err(e) =>
         && Published(s') == Published(s)
         && (faults == 0 ==> s'.files == s.files && e == NameCollisions && OutOfNames(s, plan))
  }

  /** Where the run stands: it started at `s` with history `h`, every state since is consistent, and
      apart from our temporary files the files are now `files`. */
  ghost predicate Standing(h: seq<State>, s: State, h': seq<State>, s': State, plan: Plan, temporaries: set<Path>,
                           files: map<Path, Bytes>)
  {
    && h <= h' && AllConsistent(h', |h|, s, plan)
    && s'.stdout == s.stdout && s'.files - temporaries == files && Published(s') == NonTemporary(s.process, files)
    && s'.process == s.process && s'.counter >= s.counter
    && Stage(s, plan, files)
    && (forall t :: t in temporaries ==> IsTemporary(s.process, t) && t !in s.files)
  }

  predicate Stage(s: State, plan: Plan, files: map<Path, Bytes>) {
    files == s.files || files == WithPublic(s.files, plan) || files == WithBoth(s.files, plan)
  }

  predicate Ordinary(plan: Plan) {
    plan.publicPath != plan.privatePath && !IsStdio(plan.publicPath) && !IsStdio(plan.privatePath)
  }

  ghost predicate PlanValid(process: Process, plan: Plan) {
    && Ordinary(plan) && plan.publicPath in process.destinations && plan.privatePath in process.destinations
    && !IsTemporary(process, plan.publicPath) && !IsTemporary(process, plan.privatePath)
  }

  lemma NonTemporaryUpdate(process: Process, files: map<Path, Bytes>, p: Path, bytes: Bytes)
    requires !IsTemporary(process, p)
    ensures NonTemporary(process, files[p := bytes]) == NonTemporary(process, files)[p := bytes]
  {
    hide IsTemporary;
  }

  lemma NonTemporaryDelete(process: Process, files: map<Path, Bytes>, p: Path)
    requires !IsTemporary(process, p)
    ensures NonTemporary(process, files - {p}) == NonTemporary(process, files) - {p}
  {
    hide IsTemporary;
  }

  /** A stage of the files is consistent as a published state. */
  lemma StageIsConsistent(s: State, x: State, plan: Plan, files: map<Path, Bytes>)
    requires PlanValid(s.process, plan) && Stage(s, plan, files) && x.stdout == s.stdout
    requires Published(x) == NonTemporary(s.process, files)
    ensures Consistent(s, x, plan)
  {
    hide IsTemporary, NonTemporary, IsStdio;
    NonTemporaryUpdate(s.process, s.files, plan.publicPath, plan.keys.publicKeyPem);
    NonTemporaryUpdate(s.process, WithPublic(s.files, plan), plan.privatePath, plan.keys.privateKeyPem);
  }

  lemma StandingStart(h: seq<State>, s: State, plan: Plan)
    ensures Standing(h, s, h, s, plan, {}, s.files)
  {
    assert s.files - {} == s.files;
  }

  lemma ConsistentAfterQuiet(h: seq<State>, s: State, h1: seq<State>, s1: State, h2: seq<State>, plan: Plan,
                             files: map<Path, Bytes>)
    requires PlanValid(s.process, plan) && Stage(s, plan, files)
    requires h <= h1 <= h2 && AllConsistent(h1, |h|, s, plan) && AllQuiet(h2, |h1|, s1)
    requires s1.stdout == s.stdout && Published(s1) == NonTemporary(s.process, files)
    ensures AllConsistent(h2, |h|, s, plan)
  {
    hide Consistent, Published, PlanValid, Stage;
    forall i | |h| <= i < |h2|
      ensures Consistent(s, h2[i], plan)
    {
      if i < |h1| {
        assert h2[i] == h1[i];
      } else {
        assert Quiet(s1, h2[i]);
        StageIsConsistent(s, h2[i], plan, files);
      }
    }
  }

  /** Work on one of our outputs that shows nothing. */
  lemma StandingAfterStaged(h: seq<State>, s: State, h1: seq<State>, s1: State, h2: seq<State>, s2: State, id: nat,
                            t: Path, plan: Plan, temporaries: set<Path>, files: map<Path, Bytes>)
    requires PlanValid(s.process, plan) && Standing(h, s, h1, s1, plan, temporaries, files)
    requires Staged(h1, s1, h2, s2, id, t) && t in temporaries
    ensures Standing(h, s, h2, s2, plan, temporaries, files)
  {
    hide Published, PlanValid, Stage, AllConsistent, IsTemporary, OthersUntouched;
    StagedKeepsFrame(h1, s1, h2, s2, id, t);
    ConsistentAfterQuiet(h, s, h1, s1, h2, plan, files);
    assert s2.files - temporaries == (s2.files - {t}) - temporaries == (s1.files - {t}) - temporaries
      == s1.files - temporaries;
  }

  /** A new output of ours. */
  lemma StandingAfterNew(h: seq<State>, s: State, h1: seq<State>, s1: State, h2: seq<State>, s2: State, t: Path,
                         plan: Plan, temporaries: set<Path>, files: map<Path, Bytes>)
    requires PlanValid(s.process, plan) && Standing(h, s, h1, s1, plan, temporaries, files)
    requires h1 <= h2 && AllQuiet(h2, |h1|, s1) && Quiet(s1, s2)
    requires s2.process == s1.process && s2.counter >= s1.counter
    requires t !in s1.files && IsTemporary(s.process, t) && s2.files == s1.files[t := []]
    ensures Standing(h, s, h2, s2, plan, temporaries + {t}, files)
  {
    hide Published, PlanValid, AllConsistent, IsTemporary;
    ConsistentAfterQuiet(h, s, h1, s1, h2, plan, files);
    assert t !in files;
    assert s2.files - (temporaries + {t}) == s1.files - temporaries;
  }

  lemma StandingAfterFailedNew(h: seq<State>, s: State, h1: seq<State>, s1: State, h2: seq<State>, s2: State,
                               plan: Plan, temporaries: set<Path>, files: map<Path, Bytes>)
    requires PlanValid(s.process, plan) && Standing(h, s, h1, s1, plan, temporaries, files)
    requires h1 <= h2 && AllQuiet(h2, |h1|, s1) && Quiet(s1, s2) && s2.files == s1.files
    requires s2.process == s1.process && s2.counter >= s1.counter
    ensures Standing(h, s, h2, s2, plan, temporaries, files)
  {
    hide Published, PlanValid, AllConsistent, IsTemporary, Stage;
    ConsistentAfterQuiet(h, s, h1, s1, h2, plan, files);
  }

  /** One of our outputs commits `bytes` to `destination`, which takes the files from one stage to
      another; or the commit fails and the stage stays. */
  lemma StandingAfterCommit(h: seq<State>, s: State, h1: seq<State>, s1: State, h2: seq<State>, s2: State, id: nat,
                            t: Path, destination: Path, bytes: Bytes, committed: bool, plan: Plan,
                            temporaries: set<Path>, files: map<Path, Bytes>)
    requires PlanValid(s.process, plan) && Standing(h, s, h1, s1, plan, temporaries, files) && t in temporaries
    requires !IsStdio(destination) && !IsTemporary(s.process, destination)
    requires Stage(s, plan, files[destination := bytes])
    requires Delivery(h1, s1, h2, s2, id, destination, bytes)
    requires committed ==> Delivered(s1, s2, destination, t, bytes)
    requires !committed ==> SameBut(s1.files, s2.files, t) && Published(s2) == Published(s1) && s2.stdout == s1.stdout
    ensures Standing(h, s, h2, s2, plan, temporaries, if committed then files[destination := bytes] else files)
  {
    hide Published, PlanValid, Stage, IsTemporary, OthersUntouched, Consistent, IsStdio, NonTemporary;
    DeliveryKeepsFrame(h1, s1, h2, s2, id, destination, bytes);
    NonTemporaryUpdate(s.process, files, destination, bytes);
    forall i | |h| <= i < |h2|
      ensures Consistent(s, h2[i], plan)
    {
      if i < |h1| {
        assert h2[i] == h1[i];
      } else {
        assert Delivering(s1, h2[i], destination, bytes);
        if Published(h2[i]) == Published(s1) {
          StageIsConsistent(s, h2[i], plan, files);
        } else {
          StageIsConsistent(s, h2[i], plan, files[destination := bytes]);
        }
      }
    }
    if committed {
      assert destination !in temporaries;
      assert s2.files - temporaries == (s1.files - temporaries)[destination := bytes];
    } else {
      assert s2.files - temporaries == (s2.files - {t}) - temporaries == (s1.files - {t}) - temporaries
        == s1.files - temporaries;
    }
  }

  /** Removing the new public file, when there was none before, takes the files back to the start. */
  lemma StandingAfterDelete(h: seq<State>, s: State, h1: seq<State>, s1: State, h2: seq<State>, s2: State,
                            plan: Plan, temporaries: set<Path>)
    requires PlanValid(s.process, plan) && plan.publicPath !in s.files
    requires Standing(h, s, h1, s1, plan, temporaries, WithPublic(s.files, plan))
    requires h2 == h1 + [s2] && s2.stdout == s1.stdout && s2.process == s1.process && s2.counter == s1.counter
    requires s2.files == s1.files - {plan.publicPath} && Published(s2) == Published(s1) - {plan.publicPath}
    ensures Standing(h, s, h2, s2, plan, temporaries, s.files)
  {
    hide IsTemporary, Consistent, IsStdio, Published, NonTemporary;
    NonTemporaryDelete(s.process, WithPublic(s.files, plan), plan.publicPath);
    assert WithPublic(s.files, plan) - {plan.publicPath} == s.files;
    assert s2.files - temporaries == (s1.files - temporaries) - {plan.publicPath};
    assert Stage(s, plan, s.files);
    forall i | |h| <= i < |h2|
      ensures Consistent(s, h2[i], plan)
    {
      if i < |h1| {
        assert h2[i] == h1[i];
      } else {
        StageIsConsistent(s, s2, plan, s.files);
      }
    }
  }

  /** What a key-pair publication started from. */
  datatype Start = Start(h: seq<State>, s: State, plan: Plan, faults: nat)

  /** Every output of ours whose removal failed has cost a fault. */
  ghost predicate Accounted(start: Start, s: State, faults: nat) {
    && |start.s.outputs| <= |s.outputs|
    && Leaks(s, |s.outputs|) - Leaks(s, |start.s.outputs|) + start.faults <= faults
  }

  predicate Grounded(start: Start) {
    start.h != [] && start.h[|start.h| - 1] == start.s
  }

  lemma AccountedStays(start: Start, s: State, s': State, id: nat, faults: nat, faults': nat)
    requires Accounted(start, s, faults) && OthersUntouched(s, s', id) && faults' >= faults
    requires |start.s.outputs| <= id <= |s.outputs|
    requires |s'.outputs| == |s.outputs| || (|s'.outputs| == |s.outputs| + 1 && id == |s.outputs|)
    requires id < |s'.outputs| && s'.outputs[id].phase == Leaked ==> faults' > faults
    requires id == |s.outputs| < |s'.outputs| ==> s'.outputs[id].phase == Writing
    ensures Accounted(start, s', faults')
  {
    hide TempPath;
    LeaksOfOthers(s, s', id, |s.outputs|);
    LeaksOfOthers(s, s', id, |start.s.outputs|);
  }

  ghost predicate At(start: Start, world: World, temporaries: set<Path>, files: map<Path, Bytes>)
    reads world
  {
    && world.Valid() && world.faults >= start.faults && PlanValid(start.s.process, start.plan)
    && Grounded(start) && Accounted(start, world.state, world.faults)
    && Standing(start.h, start.s, world.history, world.state, start.plan, temporaries, files)
  }

  lemma AtStart(world: World, plan: Plan)
    requires world.Valid() && PlanValid(world.state.process, plan)
    ensures At(Start(world.history, world.state, plan, world.faults), world, {}, world.state.files)
  {
    hide Standing, Leaks, PlanValid;
    StandingStart(world.history, world.state, plan);
  }

  lemma AtKeepsProcess(start: Start, world: World, temporaries: set<Path>, files: map<Path, Bytes>)
    requires At(start, world, temporaries, files)
    ensures world.state.process == start.s.process && world.state.counter >= start.s.counter
  {
    hide Run, PlanValid, Stage, AllConsistent, NonTemporary, Published, IsTemporary;
  }

  ghost function PhaseOf(o: TransactionalOutput): Phase
    reads o, o.world
    requires o.id < |o.world.state.outputs|
  {
    o.world.state.outputs[o.id].phase
  }

  /** An output that is dropped or committed; its temporary file is left only after a fault. */
  ghost predicate Over(o: TransactionalOutput, start: Start)
    reads o, o.world
  {
    && o.id < |o.world.state.outputs| && o.Is(PhaseOf(o))
    && (PhaseOf(o) == Leaked ==> o.world.faults > start.faults) && PhaseOf(o) in {Committed, Removed, Leaked}
  }

  lemma EndOfPublication(start: Start, world: World, temporaries: set<Path>, files: map<Path, Bytes>, r: Result<()>)
    requires At(start, world, temporaries, files) && AllOver(world.state, |start.s.outputs|)
    requires |world.state.outputs| <= |start.s.outputs| + 3
    requires world.faults == start.faults ==>
      temporaries !! world.state.files.Keys && (r.Err? ==> r.error == NameCollisions && OutOfNames(start.s, start.plan))
    requires match r
             case Ok(_) => files == WithBoth(start.s.files, start.plan)
             case Err(KeypairRollback(_, _)) => files == WithPublic(start.s.files, start.plan)
             case Err(_) => files == start.s.files
    ensures PairOutcome(start.s, world.state, start.plan, r, world.faults - start.faults)
  {
    hide IsTemporary, IsStdio, NonTemporary, AllConsistent, Run, LeavesLittle, Accounted;
    var s, plan := start.s, start.plan;
    NonTemporaryUpdate(s.process, s.files, plan.publicPath, plan.keys.publicKeyPem);
    NonTemporaryUpdate(s.process, WithPublic(s.files, plan), plan.privatePath, plan.keys.privateKeyPem);
    if world.faults == start.faults {
      assert world.state.files == world.state.files - temporaries;
    }
    StandingKeepsOthers(start.h, s, world.history, world.state, plan, temporaries, files);
    LittleIsLeft(start, world, temporaries, files);
  }

  lemma LittleIsLeft(start: Start, world: World, temporaries: set<Path>, files: map<Path, Bytes>)
    requires At(start, world, temporaries, files) && AllOver(world.state, |start.s.outputs|)
    requires |world.state.outputs| <= |start.s.outputs| + 3
    ensures LeavesLittle(start.s, world.state, world.faults - start.faults)
  {
    hide IsTemporary, IsStdio, NonTemporary, AllConsistent, Run, PlanValid, Stage, TempPath, Published;
    var h, s, s', i := world.history, start.s, world.state, |start.h| - 1;
    HistoryGoesOn(start, world, temporaries, files);
    LeftBehindIsCounted(s', |s.outputs|, |s'.outputs|);
    forall p | p in s'.files && p !in s.files && IsTemporary(s.process, p)
      ensures p in LeftBehind(s', |s.outputs|, |s'.outputs|)
    {
      var id := NewTemporariesAreHeld(h, i, |h| - 1, p);
      assert s'.outputs[id].phase == Leaked;
    }
  }

  lemma HistoryGoesOn(start: Start, world: World, temporaries: set<Path>, files: map<Path, Bytes>)
    requires At(start, world, temporaries, files)
    ensures var h, i := world.history, |start.h| - 1;
            && Run(h) && 0 <= i < |h| && h[i] == start.s && h[|h| - 1] == world.state
            && h[0].process == start.s.process
  {
    hide PlanValid, Stage, AllConsistent, NonTemporary, Published, IsTemporary, Accounted;
    StepsKeepProcess(world.history, |start.h| - 1);
  }

  lemma StandingKeepsOthers(h: seq<State>, s: State, h': seq<State>, s': State, plan: Plan, temporaries: set<Path>,
                            files: map<Path, Bytes>)
    requires Standing(h, s, h', s', plan, temporaries, files)
    ensures KeepsOthers(s, s', plan)
  {
    hide IsTemporary, Published, NonTemporary, AllConsistent;
    forall p | p in s.files && p != plan.publicPath && p != plan.privatePath
      ensures p in s'.files && s'.files[p] == s.files[p]
    {
      assert p !in temporaries;
      assert p in files && files[p] == s.files[p];
      assert p in s'.files - temporaries;
    }
  }

  /** Drops one of our outputs. */
  method Dispose(world: World, o: TransactionalOutput, ghost start: Start, ghost temporaries: set<Path>,
                 ghost files: map<Path, Bytes>)
    requires o.world == world && o.Is(Writing) && o.temporaryPath in temporaries && At(start, world, temporaries, files)
    requires |start.s.outputs| <= o.id
    modifies world, o
    ensures At(start, world, temporaries, files) && Over(o, start) && world.faults >= old(world.faults)
    ensures OthersUntouched(old(world.state), world.state, o.id) && |world.state.outputs| == |old(world.state).outputs|
  {
    hide Standing, Leaks, PlanValid, Run, Inv, IsTemporary, TempPath, Published;
    ghost var h1, s1 := world.history, world.state;
    o.Drop();
    AccountedStays(start, s1, world.state, o.id, old(world.faults), world.faults);
    StandingAfterStaged(start.h, start.s, h1, s1, world.history, world.state, o.id, o.temporaryPath, start.plan,
                        temporaries, files);
  }

  method Fill(world: World, o: TransactionalOutput, bytes: Bytes, ghost start: Start, ghost temporaries: set<Path>,
              ghost files: map<Path, Bytes>)
    returns (r: Result<()>)
    requires o.world == world && o.Is(Writing) && o.temporaryPath in temporaries && At(start, world, temporaries, files)
    requires |start.s.outputs| <= o.id
    requires o.Contents() == []
    modifies world, o
    ensures At(start, world, temporaries, files) && o.Is(Writing)
    ensures OthersUntouched(old(world.state), world.state, o.id) && |world.state.outputs| == |old(world.state).outputs|
    ensures r.Ok? ==> o.Contents() == bytes && world.faults == old(world.faults)
    ensures r.Err? ==> r.error == Error.Io && world.faults > old(world.faults)
  {
    hide Standing, Leaks, PlanValid, Run, Inv, IsTemporary, TempPath, Published;
    ghost var h1, s1 := world.history, world.state;
    r := o.Write(bytes);
    AccountedStays(start, s1, world.state, o.id, old(world.faults), world.faults);
    assert [] + bytes == bytes;
    StandingAfterStaged(start.h, start.s, h1, s1, world.history, world.state, o.id, o.temporaryPath, start.plan,
                        temporaries, files);
  }

  /** Commits one of our outputs, moving the files from one stage to another. */
  method CommitOne(world: World, o: TransactionalOutput, ghost start: Start, ghost temporaries: set<Path>,
                   ghost files: map<Path, Bytes>)
    returns (r: Result<()>)
    requires o.world == world && o.Is(Writing) && o.temporaryPath in temporaries && At(start, world, temporaries, files)
    requires |start.s.outputs| <= o.id
    requires !IsStdio(o.destination) && Stage(start.s, start.plan, files[o.destination := o.Contents()])
    modifies world, o
    ensures Over(o, start) && world.faults >= old(world.faults)
    ensures OthersUntouched(old(world.state), world.state, o.id) && |world.state.outputs| == |old(world.state).outputs|
    ensures r.Ok? ==>
      world.faults == old(world.faults) && At(start, world, temporaries, files[o.destination := old(o.Contents())])
    ensures r.Err? ==> r.error == Error.Io && world.faults > old(world.faults) && At(start, world, temporaries, files)
  {
    hide Standing, Leaks, PlanValid, Run, Inv, IsTemporary, TempPath, Published, IsStdio, Stage, Delivered, SameBut;
    ghost var h1, s1, contents := world.history, world.state, o.Contents();
    AtKeepsProcess(start, world, temporaries, files);
    o.DestinationIsNotTemporary();
    r := o.Commit();
    AccountedStays(start, s1, world.state, o.id, old(world.faults), world.faults);
    StandingAfterCommit(start.h, start.s, h1, s1, world.history, world.state, o.id, o.temporaryPath, o.destination,
                        contents, r.Ok?, start.plan, temporaries, files);
  }

  /** Creates another output of ours, before anything is published. */
  method CreateOne(world: World, destination: Path, ghost start: Start, ghost temporaries: set<Path>)
    returns (r: Result<TransactionalOutput>)
    requires At(start, world, temporaries, start.s.files) && destination in start.s.process.destinations
    requires forall t :: t in temporaries ==> Spent(world.state, t)
    modifies world
    ensures world.faults >= old(world.faults)
    ensures OthersUntouched(old(world.state), world.state, |old(world.state).outputs|)
    ensures r.Ok? ==>
      && fresh(r.value) && r.value.world == world && r.value.destination == destination && r.value.Is(Writing)
      && r.value.Contents() == [] && r.value.id == |old(world.state).outputs| == |world.state.outputs| - 1
      && world.faults == old(world.faults)
      && At(start, world, temporaries + {r.value.temporaryPath}, start.s.files)
    ensures r.Err? ==>
      && At(start, world, temporaries, start.s.files) && world.state.outputs == old(world.state).outputs
      && (world.faults == old(world.faults) ==> r.error == NameCollisions && RunsOut(start.s, destination))
      && r.error in {NameCollisions, Error.Io}
  {
    hide Standing, Leaks, PlanValid, Run, Inv, IsTemporary, TempPath, Published, Crowded, RunsOut, Spent;
    ghost var h1, s1 := world.history, world.state;
    AtKeepsProcess(start, world, temporaries, start.s.files);
    r := TransactionalOutput.New(world, destination);
    AccountedStays(start, s1, world.state, |s1.outputs|, old(world.faults), world.faults);
    if r.Ok? {
      StandingAfterNew(start.h, start.s, h1, s1, world.history, world.state, r.value.temporaryPath, start.plan,
                       temporaries, start.s.files);
    } else {
      StandingAfterFailedNew(start.h, start.s, h1, s1, world.history, world.state, start.plan, temporaries,
                             start.s.files);
      if Crowded(s1, destination) {
        CrowdedAtStart(start, h1, s1, temporaries, destination);
      }
    }
  }

  lemma CrowdedAtStart(start: Start, h1: seq<State>, s1: State, temporaries: set<Path>, destination: Path)
    requires Standing(start.h, start.s, h1, s1, start.plan, temporaries, start.s.files)
    requires destination in start.s.process.destinations && Crowded(s1, destination)
    requires forall t :: t in temporaries ==> Spent(s1, t)
    ensures RunsOut(start.s, destination)
  {
    hide Published, NonTemporary, IsTemporary, AllConsistent, Stage, Crowded, RunsOut, Spent;
    forall p | p in s1.files.Keys
      ensures p in start.s.files.Keys + temporaries
    {
      assert p in temporaries || p in s1.files - temporaries;
    }
    CrowdedRunsOut(start.s, s1, temporaries, destination);
  }

  lemma ReadsThrough(start: Start, world: World, temporaries: set<Path>, files: map<Path, Bytes>, p: Path)
    requires At(start, world, temporaries, files) && !IsTemporary(start.s.process, p)
    ensures SameAt(world.state.files, files, p)
  {
    hide IsTemporary, Published, NonTemporary, AllConsistent, Run, Stage;
    assert p !in temporaries;
  }

  /** Copies the previous public file, if there is one, to an output of its own. */
  method BackUp(world: World, publicPath: Path, ghost start: Start, ghost temporaries: set<Path>)
    returns (r: Result<Option<TransactionalOutput>>, ghost temporaries': set<Path>)
    requires At(start, world, temporaries, start.s.files) && publicPath == start.plan.publicPath
    requires forall t :: t in temporaries ==> Spent(world.state, t)
    modifies world
    ensures At(start, world, temporaries', start.s.files) && temporaries <= temporaries'
    ensures world.faults >= old(world.faults)
    ensures OthersUntouched(old(world.state), world.state, |old(world.state).outputs|)
    ensures |world.state.outputs| <= |old(world.state).outputs| + 1
    ensures r.Ok? ==> world.faults == old(world.faults)
    ensures r.Ok? && r.value.None? ==>
      publicPath !in start.s.files && temporaries' == temporaries && |world.state.outputs| == |old(world.state).outputs|
    ensures r.Ok? && r.value.Some? ==>
      var b := r.value.value;
      && fresh(b) && b.world == world && b.destination == publicPath && b.Is(Writing)
      && b.id == |old(world.state).outputs| == |world.state.outputs| - 1
      && publicPath in start.s.files && b.Contents() == start.s.files[publicPath]
      && temporaries' == temporaries + {b.temporaryPath}
    ensures r.Err? ==>
      && r.error in {NameCollisions, Error.Io} && AllOver(world.state, |old(world.state).outputs|)
      && (world.faults == old(world.faults) ==>
            r.error == NameCollisions && temporaries' == temporaries && RunsOut(start.s, publicPath))
  {
    hide Standing, Leaks, Run, Inv, IsTemporary, TempPath, Published, IsStdio, RunsOut, Spent;
    temporaries' := temporaries;
    ReadsThrough(start, world, temporaries, start.s.files, publicPath);
    var previous := world.ReadFile(publicPath);
    if previous.Err? {
      return Err(previous.error), temporaries;
    }
    if previous.value.None? {
      return Ok(None), temporaries;
    }
    ghost var s0 := world.state;
    var created := CreateOne(world, publicPath, start, temporaries);
    if created.Err? {
      return Err(created.error), temporaries;
    }
    var backup := created.value;
    temporaries' := temporaries + {backup.temporaryPath};
    ghost var s1 := world.state;
    var filled := Fill(world, backup, previous.value.value, start, temporaries', start.s.files);
    UntouchedTwice(s0, s1, world.state, backup.id, backup.id);
    if filled.Err? {
      ghost var s2 := world.state;
      Dispose(world, backup, start, temporaries', start.s.files);
      UntouchedTwice(s0, s2, world.state, backup.id, backup.id);
      return Err(filled.error), temporaries';
    }
    r := Ok(Some(backup));
  }

  lemma UntouchedTwice(s: State, s1: State, s2: State, id: nat, id': nat)
    requires OthersUntouched(s, s1, id) && OthersUntouched(s1, s2, id') && (id' == id || id' >= |s.outputs|)
    ensures OthersUntouched(s, s2, id)
  {
    hide TempPath;
    forall j | 0 <= j < |s.outputs| && j != id
      ensures s2.outputs[j] == s.outputs[j] && SameAt(s.files, s2.files, Temporary(s, j))
    {
      assert Temporary(s1, j) == Temporary(s, j);
    }
  }

  /** Takes the new public file back after the private one could not be published. */
  method RollBack(world: World, publicPath: Path, backup: Option<TransactionalOutput>, ghost start: Start,
                  ghost temporaries: set<Path>)
    returns (r: Result<()>)
    requires At(start, world, temporaries, WithPublic(start.s.files, start.plan)) && publicPath == start.plan.publicPath
    requires backup.None? ==> start.plan.publicPath !in start.s.files
    requires backup.Some? ==>
      var b := backup.value;
      && b.world == world && b.destination == start.plan.publicPath && b.Is(Writing) && b.temporaryPath in temporaries
      && |start.s.outputs| <= b.id
      && start.plan.publicPath in start.s.files && b.Contents() == start.s.files[start.plan.publicPath]
    modifies world, if backup.Some? then {backup.value} else {}
    ensures world.faults >= old(world.faults)
    ensures backup.Some? ==> Over(backup.value, start)
    ensures backup.Some? ==> OthersUntouched(old(world.state), world.state, backup.value.id)
    ensures backup.None? ==> OthersUntouched(old(world.state), world.state, |old(world.state).outputs|)
    ensures |world.state.outputs| == |old(world.state).outputs|
    ensures if r.Ok? then At(start, world, temporaries, start.s.files)
            else At(start, world, temporaries, WithPublic(start.s.files, start.plan)) && r.error == Error.Io
  {
    hide Standing, Leaks, Run, Inv, IsTemporary, TempPath, Published, IsStdio, PublishedAfter;
    ghost var s, plan := start.s, start.plan;
    if backup.Some? {
      assert WithPublic(s.files, plan)[plan.publicPath := s.files[plan.publicPath]] == s.files;
      r := CommitOne(world, backup.value, start, temporaries, WithPublic(s.files, plan));
      return;
    }
    r := RemovePublic(world, publicPath, start, temporaries);
  }

  method RemovePublic(world: World, publicPath: Path, ghost start: Start, ghost temporaries: set<Path>)
    returns (r: Result<()>)
    requires At(start, world, temporaries, WithPublic(start.s.files, start.plan))
    requires publicPath == start.plan.publicPath && publicPath !in start.s.files
    modifies world
    ensures world.faults >= old(world.faults)
    ensures OthersUntouched(old(world.state), world.state, |old(world.state).outputs|)
    ensures |world.state.outputs| == |old(world.state).outputs|
    ensures if r.Ok? then At(start, world, temporaries, start.s.files)
            else At(start, world, temporaries, WithPublic(start.s.files, start.plan)) && r.error == Error.Io
  {
    hide Standing, Leaks, Run, Inv, IsTemporary, TempPath, Published, IsStdio;
    var failed := world.Fault();
    if failed {
      return Err(Error.Io);
    }
    ghost var h1, s1 := world.history, world.state;
    ReadsThrough(start, world, temporaries, WithPublic(start.s.files, start.plan), publicPath);
    AtKeepsProcess(start, world, temporaries, WithPublic(start.s.files, start.plan));
    world.Perform(Delete(publicPath));
    AccountedStays(start, s1, world.state, |s1.outputs|, old(world.faults), world.faults);
    StandingAfterDelete(start.h, start.s, h1, s1, world.history, world.state, start.plan, temporaries);
    r := Ok(());
  }

  /** The outputs of one publication, all different, for the files of the plan. */
  ghost predicate Ours(start: Start, world: World, privateOutput: TransactionalOutput,
                       publicOutput: TransactionalOutput, backup: Option<TransactionalOutput>, temporaries: set<Path>)
  {
    && privateOutput.world == publicOutput.world == world
    && privateOutput != publicOutput && privateOutput.id != publicOutput.id
    && |start.s.outputs| <= privateOutput.id && |start.s.outputs| <= publicOutput.id
    && privateOutput.destination == start.plan.privatePath && publicOutput.destination == start.plan.publicPath
    && (backup.None? ==>
          && start.plan.publicPath !in start.s.files
          && temporaries == {privateOutput.temporaryPath, publicOutput.temporaryPath})
    && (backup.Some? ==>
          var b := backup.value;
          && b.world == world && b != privateOutput && b != publicOutput
          && b.id != privateOutput.id && b.id != publicOutput.id && |start.s.outputs| <= b.id
          && b.destination == start.plan.publicPath && start.plan.publicPath in start.s.files
          && temporaries == {privateOutput.temporaryPath, publicOutput.temporaryPath, b.temporaryPath})
  }

  /** The public file could not be published: the other outputs are dropped. */
  method DisposeRest(world: World, privateOutput: TransactionalOutput, publicOutput: TransactionalOutput,
                     backup: Option<TransactionalOutput>, ghost start: Start, ghost temporaries: set<Path>)
    requires Ours(start, world, privateOutput, publicOutput, backup, temporaries)
    requires At(start, world, temporaries, start.s.files)
    requires privateOutput.Is(Writing) && Over(publicOutput, start) && (backup.Some? ==> backup.value.Is(Writing))
    modifies world, privateOutput, if backup.Some? then {backup.value} else {}
    ensures world.faults >= old(world.faults) && At(start, world, temporaries, start.s.files)
    ensures Over(privateOutput, start) && Over(publicOutput, start) && (backup.Some? ==> Over(backup.value, start))
    ensures |world.state.outputs| == |old(world.state).outputs|
  {
    hide Standing, Leaks, Run, Inv, IsTemporary, TempPath, Published, IsStdio, OthersUntouched;
    ghost var s0 := world.state;
    if backup.Some? {
      Dispose(world, backup.value, start, temporaries, start.s.files);
      privateOutput.Unaffected(s0, Writing, backup.value.id);
      publicOutput.Unaffected(s0, s0.outputs[publicOutput.id].phase, backup.value.id);
    }
    ghost var s1 := world.state;
    Dispose(world, privateOutput, start, temporaries, start.s.files);
    publicOutput.Unaffected(s1, s1.outputs[publicOutput.id].phase, privateOutput.id);
    if backup.Some? {
      backup.value.Unaffected(s1, s1.outputs[backup.value.id].phase, privateOutput.id);
    }
  }

  /** Publishes both files, the public one first. */
  method CommitPair(world: World, privateOutput: TransactionalOutput, publicOutput: TransactionalOutput,
                    backup: Option<TransactionalOutput>, ghost start: Start, ghost temporaries: set<Path>)
    returns (r: Result<()>)
    requires Ours(start, world, privateOutput, publicOutput, backup, temporaries)
    requires At(start, world, temporaries, start.s.files)
    requires privateOutput.Is(Writing) && privateOutput.Contents() == start.plan.keys.privateKeyPem
    requires publicOutput.Is(Writing) && publicOutput.Contents() == start.plan.keys.publicKeyPem
    requires backup.Some? ==>
      backup.value.Is(Writing) && backup.value.Contents() == start.s.files[start.plan.publicPath]
    modifies world, privateOutput, publicOutput, if backup.Some? then {backup.value} else {}
    ensures world.faults >= old(world.faults) && Over(privateOutput, start) && Over(publicOutput, start)
    ensures backup.Some? ==> Over(backup.value, start)
    ensures |world.state.outputs| == |old(world.state).outputs|
    ensures At(start, world, temporaries, FilesAfter(start, r))
    ensures r.Err? ==> world.faults > old(world.faults)
  {
    hide Standing, Leaks, Run, Inv, IsTemporary, TempPath, Published, IsStdio, OthersUntouched;
    ghost var s0 := world.state;
    r := CommitOne(world, publicOutput, start, temporaries, start.s.files);
    privateOutput.Unaffected(s0, Writing, publicOutput.id);
    if backup.Some? {
      backup.value.Unaffected(s0, Writing, publicOutput.id);
    }
    if r.Err? {
      DisposeRest(world, privateOutput, publicOutput, backup, start, temporaries);
      return;
    }
    ghost var s1 := world.state;
    var published := CommitOne(world, privateOutput, start, temporaries, WithPublic(start.s.files, start.plan));
    publicOutput.Unaffected(s1, s1.outputs[publicOutput.id].phase, privateOutput.id);
    if backup.Some? {
      backup.value.Unaffected(s1, Writing, privateOutput.id);
    }
    r := SettlePair(world, privateOutput, publicOutput, backup, published, start, temporaries);
  }

  ghost function FilesAfter(start: Start, r: Result<()>): (files: map<Path, Bytes>) {
    match r
    case Ok(_) => WithBoth(start.s.files, start.plan)
    case Err(KeypairRollback(_, _)) => WithPublic(start.s.files, start.plan)
    case Err(_) => start.s.files
  }

  /** After both commits were tried: drop the backup, or use it to roll back. */
  method SettlePair(world: World, privateOutput: TransactionalOutput, publicOutput: TransactionalOutput,
                    backup: Option<TransactionalOutput>, published: Result<()>, ghost start: Start,
                    ghost temporaries: set<Path>)
    returns (r: Result<()>)
    requires Ours(start, world, privateOutput, publicOutput, backup, temporaries)
    requires published.Ok? ==> At(start, world, temporaries, WithBoth(start.s.files, start.plan))
    requires published.Err? ==>
      published.error == Error.Io && world.faults > start.faults
      && At(start, world, temporaries, WithPublic(start.s.files, start.plan))
    requires Over(privateOutput, start) && Over(publicOutput, start)
    requires backup.Some? ==>
      backup.value.Is(Writing) && backup.value.Contents() == start.s.files[start.plan.publicPath]
    modifies world, if backup.Some? then {backup.value} else {}
    ensures world.faults >= old(world.faults) && Over(privateOutput, start) && Over(publicOutput, start)
    ensures backup.Some? ==> Over(backup.value, start)
    ensures |world.state.outputs| == |old(world.state).outputs|
    ensures At(start, world, temporaries, FilesAfter(start, r)) && (r.Ok? <==> published.Ok?)
  {
    hide Standing, Leaks, Run, Inv, IsTemporary, TempPath, Published, IsStdio, OthersUntouched;
    ghost var s0 := world.state;
    if published.Ok? {
      if backup.Some? {
        Dispose(world, backup.value, start, temporaries, WithBoth(start.s.files, start.plan));
      }
      r := Ok(());
      if backup.None? {
        return;
      }
    } else {
      var rolledBack := RollBack(world, publicOutput.destination, backup, start, temporaries);
      r := if rolledBack.Err? then Err(KeypairRollback(published.error, rolledBack.error)) else published;
    }
    ghost var other := if backup.Some? then backup.value.id else |s0.outputs|;
    OverStays(world, s0, privateOutput, publicOutput, other, start);
  }

  lemma OverStays(world: World, s: State, privateOutput: TransactionalOutput, publicOutput: TransactionalOutput,
                  other: nat, start: Start)
    requires privateOutput.world == publicOutput.world == world && world.Valid()
    requires OthersUntouched(s, world.state, other)
    requires privateOutput.id < |s.outputs| && publicOutput.id < |s.outputs|
    requires other != privateOutput.id && other != publicOutput.id
    requires privateOutput.Represents(s, s.outputs[privateOutput.id].phase)
    requires publicOutput.Represents(s, s.outputs[publicOutput.id].phase)
    requires s.outputs[privateOutput.id].phase in {Committed, Removed, Leaked}
    requires s.outputs[publicOutput.id].phase in {Committed, Removed, Leaked}
    requires s.outputs[privateOutput.id].phase == Leaked || s.outputs[publicOutput.id].phase == Leaked ==>
      world.faults > start.faults
    ensures Over(privateOutput, start) && Over(publicOutput, start)
  {
    hide OthersUntouched, Run, IsTemporary;
    privateOutput.Unaffected(s, s.outputs[privateOutput.id].phase, other);
    publicOutput.Unaffected(s, s.outputs[publicOutput.id].phase, other);
  }

  lemma NothingLeft(o: TransactionalOutput, start: Start)
    requires Over(o, start) && o.world.faults == start.faults
    ensures o.temporaryPath !in o.world.state.files
  {
    hide Run, IsTemporary;
  }

  /** How a finished publication reads from outside. */
  ghost predicate Finished(start: Start, world: World, r: Result<()>)
    reads world
  {
    && world.Valid() && start.h <= world.history && world.faults >= start.faults
    && PairOutcome(start.s, world.state, start.plan, r, world.faults - start.faults)
    && AllConsistent(world.history, |start.h|, start.s, start.plan)
  }

  lemma Finish(start: Start, world: World, temporaries: set<Path>, r: Result<()>)
    requires At(start, world, temporaries, FilesAfter(start, r)) && AllOver(world.state, |start.s.outputs|)
    requires |world.state.outputs| <= |start.s.outputs| + 3
    requires world.faults == start.faults ==>
      temporaries !! world.state.files.Keys && (r.Err? ==> r.error == NameCollisions && OutOfNames(start.s, start.plan))
    ensures Finished(start, world, r)
  {
    hide PairOutcome, IsTemporary, Run;
    EndOfPublication(start, world, temporaries, FilesAfter(start, r), r);
  }

  /** Writes both outputs and the backup, then publishes. */
  method StagePair(world: World, privateOutput: TransactionalOutput, publicOutput: TransactionalOutput, keys: KeyPair,
                   ghost start: Start, ghost temporaries: set<Path>)
    returns (r: Result<()>)
    requires privateOutput.world == publicOutput.world == world && privateOutput != publicOutput
    requires privateOutput.id == |start.s.outputs| == publicOutput.id - 1
    requires |world.state.outputs| == |start.s.outputs| + 2
    requires privateOutput.destination == start.plan.privatePath
    requires publicOutput.destination == start.plan.publicPath && keys == start.plan.keys
    requires temporaries == {privateOutput.temporaryPath, publicOutput.temporaryPath}
    requires At(start, world, temporaries, start.s.files)
    requires privateOutput.Is(Writing) && privateOutput.Contents() == []
    requires publicOutput.Is(Writing) && publicOutput.Contents() == []
    modifies world, privateOutput, publicOutput
    ensures Finished(start, world, r)
  {
    hide Standing, Leaks, Run, Inv, IsTemporary, TempPath, Published, IsStdio, OthersUntouched, PairOutcome,
         AllConsistent, RunsOut, Spent;
    ghost var s0 := world.state;
    r := Fill(world, privateOutput, keys.privateKeyPem, start, temporaries, start.s.files);
    publicOutput.Unaffected(s0, Writing, privateOutput.id);
    if r.Ok? {
      ghost var s1 := world.state;
      r := Fill(world, publicOutput, keys.publicKeyPem, start, temporaries, start.s.files);
      privateOutput.Unaffected(s1, Writing, publicOutput.id);
    }
    if r.Err? {
      DisposePair(world, privateOutput, publicOutput, start, temporaries);
      Finish(start, world, temporaries, r);
      return;
    }
    r := BackUpAndCommit(world, privateOutput, publicOutput, start, temporaries);
  }

  method DisposePair(world: World, privateOutput: TransactionalOutput, publicOutput: TransactionalOutput,
                     ghost start: Start, ghost temporaries: set<Path>)
    requires privateOutput.world == publicOutput.world == world && privateOutput != publicOutput
    requires privateOutput.id != publicOutput.id
    requires |start.s.outputs| <= privateOutput.id && |start.s.outputs| <= publicOutput.id
    requires privateOutput.temporaryPath in temporaries && publicOutput.temporaryPath in temporaries
    requires At(start, world, temporaries, start.s.files) && privateOutput.Is(Writing) && publicOutput.Is(Writing)
    modifies world, privateOutput, publicOutput
    ensures world.faults >= old(world.faults) && At(start, world, temporaries, start.s.files)
    ensures Over(privateOutput, start) && Over(publicOutput, start)
    ensures |world.state.outputs| == |old(world.state).outputs|
    ensures forall j :: 0 <= j < |world.state.outputs| && j != privateOutput.id && j != publicOutput.id ==>
      world.state.outputs[j] == old(world.state).outputs[j]
  {
    hide Standing, Leaks, Run, Inv, IsTemporary, TempPath, Published, IsStdio;
    ghost var s0 := world.state;
    Dispose(world, publicOutput, start, temporaries, start.s.files);
    privateOutput.Unaffected(s0, Writing, publicOutput.id);
    ghost var s1 := world.state;
    Dispose(world, privateOutput, start, temporaries, start.s.files);
    publicOutput.Unaffected(s1, s1.outputs[publicOutput.id].phase, privateOutput.id);
  }

  method BackUpAndCommit(world: World, privateOutput: TransactionalOutput, publicOutput: TransactionalOutput,
                         ghost start: Start, ghost temporaries: set<Path>)
    returns (r: Result<()>)
    requires privateOutput.world == publicOutput.world == world && privateOutput != publicOutput
    requires privateOutput.id == |start.s.outputs| == publicOutput.id - 1
    requires |world.state.outputs| == |start.s.outputs| + 2
    requires privateOutput.destination == start.plan.privatePath && publicOutput.destination == start.plan.publicPath
    requires temporaries == {privateOutput.temporaryPath, publicOutput.temporaryPath}
    requires At(start, world, temporaries, start.s.files)
    requires privateOutput.Is(Writing) && privateOutput.Contents() == start.plan.keys.privateKeyPem
    requires publicOutput.Is(Writing) && publicOutput.Contents() == start.plan.keys.publicKeyPem
    modifies world, privateOutput, publicOutput
    ensures Finished(start, world, r)
  {
    hide Standing, Leaks, Run, Inv, IsTemporary, TempPath, Published, IsStdio, OthersUntouched, PairOutcome,
         AllConsistent, RunsOut, Spent, PlanValid;
    ghost var s0 := world.state;
    ghost var all;
    var backup;
    privateOutput.NameIsSpent();
    publicOutput.NameIsSpent();
    backup, all := BackUp(world, publicOutput.destination, start, temporaries);
    privateOutput.Unaffected(s0, Writing, |s0.outputs|);
    publicOutput.Unaffected(s0, Writing, |s0.outputs|);
    if backup.Err? {
      DisposePair(world, privateOutput, publicOutput, start, all);
      r := Err(backup.error);
      if world.faults == start.faults {
        NothingLeft(privateOutput, start);
        NothingLeft(publicOutput, start);
      }
      Finish(start, world, all, r);
      return;
    }
    r := CommitPair(world, privateOutput, publicOutput, backup.value, start, all);
    if world.faults == start.faults {
      NothingLeft(privateOutput, start);
      NothingLeft(publicOutput, start);
      if backup.value.Some? {
        NothingLeft(backup.value.value, start);
      }
    }
    Finish(start, world, all, r);
  }

  method PublishPair(world: World, keys: KeyPair, publicPath: Path, privatePath: Path, ghost start: Start)
    returns (r: Result<()>)
    requires At(start, world, {}, start.s.files) && start.plan == Plan(publicPath, privatePath, keys)
    requires world.state == start.s
    modifies world
    ensures Finished(start, world, r)
  {
    hide Standing, Leaks, Run, Inv, IsTemporary, TempPath, Published, IsStdio, OthersUntouched, PairOutcome,
         AllConsistent, RunsOut, Spent;
    var first := CreateOne(world, privatePath, start, {});
    if first.Err? {
      r := Err(first.error);
      Finish(start, world, {}, r);
      return;
    }
    var privateOutput := first.value;
    ghost var s0 := world.state;
    ghost var one := {privateOutput.temporaryPath};
    assert {} + one == one;
    privateOutput.NameIsSpent();
    var second := CreateOne(world, publicPath, start, one);
    privateOutput.Unaffected(s0, Writing, |s0.outputs|);
    if second.Err? {
      Dispose(world, privateOutput, start, one, start.s.files);
      r := Err(second.error);
      if world.faults == start.faults {
        NothingLeft(privateOutput, start);
      }
      Finish(start, world, one, r);
      return;
    }
    var publicOutput := second.value;
    r := StagePair(world, privateOutput, publicOutput, keys, start, one + {publicOutput.temporaryPath});
  }

  /** Generates a key pair into `directory`. */
  method GenerateKeypair(world: World, entropy: RandomSource, suite: Suite, directory: string,
                         passphrase: Option<Bytes>, algorithm: KeyAlgorithm)
    returns (r: Result<()>, ghost keys: KeyPair, ghost seed: Bytes, ghost x25519Seed: Bytes)
    requires world.Valid()
    requires PublicPath(directory) in world.state.process.destinations
    requires PrivatePath(directory) in world.state.process.destinations
    modifies world, entropy`drawn
    ensures seed == entropy.Slice(old(entropy.drawn), 64) && x25519Seed == entropy.Slice(old(entropy.drawn) + 64, 32)
    ensures entropy.drawn == old(entropy.drawn) + 96
    ensures keys == GenerateKeyPair(suite, algorithm, seed, x25519Seed, passphrase)
    ensures world.Valid() && old(world.history) <= world.history && world.faults >= old(world.faults)
    ensures PairOutcome(old(world.state), world.state, Plan(PublicPath(directory), PrivatePath(directory), keys), r,
                        world.faults - old(world.faults))
    ensures AllConsistent(world.history, |old(world.history)|, old(world.state),
                          Plan(PublicPath(directory), PrivatePath(directory), keys))
  {
    hide Standing, Leaks, Run, Inv, IsTemporary, TempPath, Published, IsStdio, PairOutcome, AllConsistent;
    var drawn := entropy.Draw(64);
    var drawnX25519 := entropy.Draw(32);
    seed, x25519Seed := drawn, drawnX25519;
    var pair := GenerateKeyPair(suite, algorithm, drawn, drawnX25519, passphrase);
    keys := pair;
    KeyPathsAreOrdinary(world.state.process, directory);
    var publicPath, privatePath := PublicPath(directory), PrivatePath(directory);
    ghost var start := Start(world.history, world.state, Plan(publicPath, privatePath, keys), world.faults);
    AtStart(world, start.plan);
    var failed := world.Fault();
    if failed {
      r := Err(Error.Io);
      Finish(start, world, {}, r);
      return;
    }
    failed := world.Fault();
    if failed {
      r := Err(Crypto);
      Finish(start, world, {}, r);
      return;
    }
    r := PublishPair(world, pair, publicPath, privatePath, start);
  }
}
