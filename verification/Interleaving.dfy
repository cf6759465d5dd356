/** What holds of every run of the protocol, however the steps of its outputs interleave, whichever
    of them fail, and wherever the process stops. */
module Interleaving {
  import opened Common
  import opened TempNames
  import opened FileSystem

  lemma {:induction false} StepsKeepProcess(h: seq<State>, k: nat)
    requires Steps(h) && k < |h|
    ensures h[k].process == h[0].process
  {
    if k > 0 {
      StepsKeepProcess(h, k - 1);
      assert Next(h[k - 1], h[k]);
    }
  }

  // ---- Destinations ----

  /** If `p` exists, it is untouched since the start or holds the complete contents of one
      committed output. */
  ghost predicate Whole(start: State, s: State, p: Path) {
    p in s.files ==>
      || (p in start.files && s.files[p] == start.files[p])
      || (exists id :: 0 <= id < |s.outputs| && CommittedTo(s, id, p))
  }

  ghost predicate CommittedTo(s: State, id: nat, p: Path)
    requires id < |s.outputs|
  {
    && s.outputs[id].phase == Committed && s.outputs[id].destination == p
    && p in s.files && s.files[p] == s.outputs[id].written
  }

  /** What a step does at a path that is not a temporary one. */
  lemma StepAtPublished(s: State, e: Event, p: Path)
    requires Inv(s) && Enabled(s, e) && !IsTemporary(s.process, p)
    ensures if e.Publish? && s.outputs[e.id].destination == p then CommittedTo(Apply(s, e), e.id, p)
            else if e == Delete(p) then p !in Apply(s, e).files
            else SameAt(s.files, Apply(s, e).files, p)
  {
    hide IsTemporary, IsStdio, TempPath, Inv;
    var s' := Apply(s, e);
    StepRefines(s, e);
    assert p in Published(s') <==> p in s'.files;
    assert p in Published(s) <==> p in s.files;
    assert p in s'.files ==> s'.files[p] == Published(s')[p];
    assert p in s.files ==> Published(s)[p] == s.files[p];
  }

  lemma StepKeepsWhole(start: State, s: State, e: Event, p: Path)
    requires Inv(s) && Enabled(s, e) && !IsTemporary(s.process, p) && Whole(start, s, p)
    ensures Whole(start, Apply(s, e), p)
  {
    hide IsTemporary, IsStdio, TempPath, Inv;
    var s' := Apply(s, e);
    StepAtPublished(s, e, p);
    if e.Publish? && s.outputs[e.id].destination == p {
      assert CommittedTo(s', e.id, p);
    } else if p in s'.files {
      if id :| 0 <= id < |s.outputs| && CommittedTo(s, id, p) {
        assert s'.outputs[id] == s.outputs[id];
        assert CommittedTo(s', id, p);
      }
    }
  }

  /** Interleaving safety: over any interleaving of the steps of any number of outputs, with any
      failures and deletions, a file that exists at a path holds what it held at the start or one
      committed output in full. */
  lemma {:induction false} DestinationsAreWhole(h: seq<State>, k: nat, p: Path)
    requires Run(h) && k < |h| && !IsTemporary(h[0].process, p)
    ensures Whole(h[0], h[k], p)
  {
    hide Inv, IsTemporary;
    if k > 0 {
      DestinationsAreWhole(h, k - 1, p);
      RunKeepsInv(h, k - 1);
      StepsKeepProcess(h, k - 1);
      var e :| Enabled(h[k - 1], e) && h[k] == Apply(h[k - 1], e);
      StepKeepsWhole(h[0], h[k - 1], e, p);
    }
  }

  /** Step `i` of the run deletes `p`. */
  ghost predicate DeletedAt(h: seq<State>, i: nat, p: Path) {
    0 < i < |h| && Enabled(h[i - 1], Delete(p)) && h[i] == Apply(h[i - 1], Delete(p))
  }

  lemma LossAtStep(h: seq<State>, k: nat, p: Path)
    requires Run(h) && 0 < k < |h| && !IsTemporary(h[0].process, p)
    ensures p in h[k - 1].files && p !in h[k].files ==> DeletedAt(h, k, p)
  {
    hide Inv, IsTemporary;
    RunKeepsInv(h, k - 1);
    StepsKeepProcess(h, k - 1);
    var e :| Enabled(h[k - 1], e) && h[k] == Apply(h[k - 1], e);
    StepAtPublished(h[k - 1], e, p);
  }

  /** Files are lost only by deletion: one that was there is still there, unless a step deleted it. */
  lemma {:induction false} LossIsDeletion(h: seq<State>, from: nat, k: nat, p: Path)
    requires Run(h) && from <= k < |h| && !IsTemporary(h[0].process, p) && p in h[from].files
    ensures p in h[k].files || exists i :: from < i <= k && DeletedAt(h, i, p)
  {
    hide Run, IsTemporary, DeletedAt;
    if from < k {
      LossIsDeletion(h, from, k - 1, p);
      LossAtStep(h, k, p);
    }
  }

  /** Step `i` of the run publishes output `id` onto `p`. */
  ghost predicate PublishedAt(h: seq<State>, i: nat, id: nat, p: Path) {
    && 0 < i < |h| && Enabled(h[i - 1], Publish(id)) && h[i] == Apply(h[i - 1], Publish(id))
    && h[i - 1].outputs[id].destination == p
  }

  /** What the last publication onto `p`, or deletion of it, says that `p` holds at point `k` of the
      run; what was there at the start when there was neither. */
  ghost function LastGiven(h: seq<State>, k: nat, p: Path): (r: Option<Bytes>)
    requires k < |h|
  {
    if k == 0 then Lookup(h[0].files, p)
    else if id: nat :| PublishedAt(h, k, id, p) then Some(h[k - 1].outputs[id].written)
    else if DeletedAt(h, k, p) then None
    else LastGiven(h, k - 1, p)
  }

  function Lookup(files: map<Path, Bytes>, p: Path): (r: Option<Bytes>) {
    if p in files then Some(files[p]) else None
  }

  lemma LookupAfterStep(h: seq<State>, k: nat, p: Path)
    requires Run(h) && 0 < k < |h| && !IsTemporary(h[0].process, p)
    ensures forall id: nat :: PublishedAt(h, k, id, p) ==> Lookup(h[k].files, p) == Some(h[k - 1].outputs[id].written)
    ensures (forall id: nat :: !PublishedAt(h, k, id, p)) ==>
      Lookup(h[k].files, p) == if DeletedAt(h, k, p) then None else Lookup(h[k - 1].files, p)
  {
    hide Inv, IsTemporary;
    RunKeepsInv(h, k - 1);
    StepsKeepProcess(h, k - 1);
    forall id: nat | PublishedAt(h, k, id, p)
      ensures Lookup(h[k].files, p) == Some(h[k - 1].outputs[id].written)
    {
      StepAtPublished(h[k - 1], Publish(id), p);
    }
    if forall id: nat :: !PublishedAt(h, k, id, p) {
      var e :| Enabled(h[k - 1], e) && h[k] == Apply(h[k - 1], e);
      StepAtPublished(h[k - 1], e, p);
      if e.Publish? && h[k - 1].outputs[e.id].destination == p {
        assert PublishedAt(h, k, e.id, p);
      } else if DeletedAt(h, k, p) {
        StepAtPublished(h[k - 1], Delete(p), p);
      }
    }
  }

  /** Each destination behaves like a single register: at every point of every run it holds exactly
      what its last publication was given, or nothing after a deletion. */
  lemma {:induction false} LastPublicationStands(h: seq<State>, k: nat, p: Path)
    requires Run(h) && k < |h| && !IsTemporary(h[0].process, p)
    ensures Lookup(h[k].files, p) == LastGiven(h, k, p)
  {
    hide Run, IsTemporary, PublishedAt, DeletedAt;
    if k > 0 {
      LastPublicationStands(h, k - 1, p);
      LookupAfterStep(h, k, p);
    }
  }

  // ---- Temporary files ----

  /** Files with temporary names: exactly those that were there at the start, unchanged, and those
      of the outputs that are not yet gone. */
  ghost predicate TemporariesAccounted(start: State, s: State, p: Path) {
    && (p in start.files ==> p in s.files && s.files[p] == start.files[p])
    && (p in s.files <==>
          p in start.files || Held(s, p))
    && (p in start.files ==> forall id :: 0 <= id < |s.outputs| ==> Temporary(s, id) != p)
  }

  ghost predicate Holds(s: State, id: nat, p: Path)
    requires id < |s.outputs|
  {
    !Gone(s.outputs[id].phase) && Temporary(s, id) == p
  }

  ghost predicate Held(s: State, p: Path) {
    exists id :: 0 <= id < |s.outputs| && Holds(s, id, p)
  }

  /** A step of one output, seen at the path of its own temporary file. */
  lemma StepAtOwnTemporary(s: State, e: Event, id: nat, p: Path)
    requires Inv(s) && Enabled(s, e) && ActsOn(e, id) && id < |s.outputs| && p == Temporary(s, id)
    ensures p in Apply(s, e).files <==> Held(Apply(s, e), p)
    ensures forall j :: 0 <= j < |s.outputs| ==> Temporary(Apply(s, e), j) == Temporary(s, j)
  {
    hide IsTemporary, IsStdio, TempPath, Inv;
    var s' := Apply(s, e);
    StepKeepsInv(s, e);
    InvAt(s');
    UniqueHolder(s', id, p);
    assert p in s'.files <==> Holds(s', id, p);
  }

  /** The same step, seen at any other temporary path. */
  lemma StepElsewhere(s: State, e: Event, id: nat, p: Path)
    requires Inv(s) && Enabled(s, e) && ActsOn(e, id) && id < |s.outputs| && IsTemporary(s.process, p)
    requires p != Temporary(s, id)
    ensures SameAt(s.files, Apply(s, e).files, p)
    ensures Held(Apply(s, e), p) <==> Held(s, p)
    ensures forall j :: 0 <= j < |s.outputs| ==> Temporary(Apply(s, e), j) == Temporary(s, j)
  {
    hide IsTemporary, IsStdio, TempPath, Inv;
    var s' := Apply(s, e);
    InvAt(s);
    assert forall j :: 0 <= j < |s.outputs| ==> (Holds(s', j, p) <==> Holds(s, j, p));
  }

  lemma CreateAt(s: State, e: Event, p: Path)
    requires Inv(s) && Enabled(s, e) && e.Create? && IsTemporary(s.process, p)
    ensures p != Temporary(Apply(s, e), |s.outputs|) ==>
      SameAt(s.files, Apply(s, e).files, p) && (Held(Apply(s, e), p) <==> Held(s, p))
    ensures p == Temporary(Apply(s, e), |s.outputs|) ==> p in Apply(s, e).files && Held(Apply(s, e), p)
    ensures forall j :: 0 <= j < |s.outputs| ==> Temporary(Apply(s, e), j) == Temporary(s, j)
  {
    hide IsTemporary, IsStdio, TempPath, Inv;
    var s' := Apply(s, e);
    assert forall j :: 0 <= j < |s.outputs| ==> (Holds(s', j, p) <==> Holds(s, j, p));
    assert p == Temporary(s', |s.outputs|) <==> Holds(s', |s.outputs|, p);
  }

  lemma StepKeepsAccounts(start: State, s: State, e: Event, p: Path)
    requires Inv(s) && Enabled(s, e) && IsTemporary(s.process, p) && TemporariesAccounted(start, s, p)
    ensures TemporariesAccounted(start, Apply(s, e), p)
  {
    hide IsTemporary, IsStdio, TempPath, Inv, Held;
    match e
    case Draw => HeldDependsOnOutputs(s, Apply(s, e), p);
    case Delete(_) =>
      InvAt(s);
      HeldDependsOnOutputs(s, Apply(s, e), p);
    case Create(_, _) => CreateAt(s, e, p);
    case _ =>
      if p == Temporary(s, e.id) {
        StepAtOwnTemporary(s, e, e.id, p);
      } else {
        StepElsewhere(s, e, e.id, p);
      }
  }

  lemma HeldDependsOnOutputs(s: State, s': State, p: Path)
    requires s.outputs == s'.outputs && s.process == s'.process
    ensures Held(s, p) == Held(s', p)
    ensures forall j :: 0 <= j < |s.outputs| ==> Temporary(s', j) == Temporary(s, j)
  {
    assert forall j :: 0 <= j < |s.outputs| ==> (Holds(s', j, p) <==> Holds(s, j, p));
  }

  lemma UniqueHolder(s: State, id: nat, p: Path)
    requires Inv(s) && id < |s.outputs| && Temporary(s, id) == p
    ensures forall j :: 0 <= j < |s.outputs| && j != id ==> Temporary(s, j) != p
  {
    hide Inv;
    forall j | 0 <= j < |s.outputs| && j != id
      ensures Temporary(s, j) != p
    {
      TemporariesDiffer(s, id, j);
    }
  }

  /** No file that existed is opened, truncated or removed under a temporary name, and nothing is
      left behind that is not accounted for. */
  lemma {:induction false} TemporariesAreAccounted(h: seq<State>, k: nat, p: Path)
    requires Run(h) && k < |h| && IsTemporary(h[0].process, p) && h[0].outputs == []
    ensures TemporariesAccounted(h[0], h[k], p)
  {
    hide Inv, IsTemporary;
    if k > 0 {
      TemporariesAreAccounted(h, k - 1, p);
      RunKeepsInv(h, k - 1);
      StepsKeepProcess(h, k - 1);
      var e :| Enabled(h[k - 1], e) && h[k] == Apply(h[k - 1], e);
      StepKeepsAccounts(h[0], h[k - 1], e, p);
    }
  }

  /** Once every output is committed or dropped, a new temporary file is left exactly where a
      removal failed. */
  lemma LeftoversAreFailedRemovals(h: seq<State>, k: nat, p: Path)
    requires Run(h) && k < |h| && IsTemporary(h[0].process, p) && h[0].outputs == []
    requires forall id :: 0 <= id < |h[k].outputs| ==> h[k].outputs[id].phase in {Committed, Removed, Leaked}
    ensures p in h[k].files && p !in h[0].files
        <==> exists id :: 0 <= id < |h[k].outputs| && h[k].outputs[id].phase == Leaked && Temporary(h[k], id) == p
  {
    hide Inv, IsTemporary, TempPath;
    TemporariesAreAccounted(h, k, p);
    var s := h[k];
    if id :| 0 <= id < |s.outputs| && s.outputs[id].phase == Leaked && Temporary(s, id) == p {
      assert Holds(s, id, p);
    }
    if id :| 0 <= id < |s.outputs| && Holds(s, id, p) {
      assert s.outputs[id].phase == Leaked;
    }
  }

  /** Concurrent outputs never share a path: whatever was drawn, created or dropped in between, two
      outputs of one run have different temporary files. */
  lemma TemporariesAreUnique(h: seq<State>, k: nat, i: nat, j: nat)
    requires Run(h) && k < |h| && i < j < |h[k].outputs|
    ensures Temporary(h[k], i) != Temporary(h[k], j)
  {
    hide Inv;
    RunKeepsInv(h, k);
    TemporariesDiffer(h[k], i, j);
  }

  /** A temporary file that has come since point `i` of a run belongs to an output created since. */
  lemma {:induction false} NewTemporariesAreHeld(h: seq<State>, i: nat, k: nat, p: Path) returns (id: nat)
    requires Run(h) && i <= k < |h| && IsTemporary(h[0].process, p) && p in h[k].files && p !in h[i].files
    ensures |h[i].outputs| <= id < |h[k].outputs| && Holds(h[k], id, p)
  {
    hide Inv, IsTemporary;
    RunKeepsInv(h, k - 1);
    RunKeepsInv(h, k);
    StepsKeepProcess(h, k - 1);
    var s, s' := h[k - 1], h[k];
    var e :| Enabled(s, e) && s' == Apply(s, e);
    OutputsStay(h, i, k - 1);
    if p in s.files {
      id := NewTemporariesAreHeld(h, i, k - 1, p);
      HeldStays(s, e, id, p);
    } else {
      id := NewTemporaryIsCreated(s, e, p);
    }
  }

  lemma {:induction false} OutputsStay(h: seq<State>, i: nat, k: nat)
    requires Steps(h) && i <= k < |h|
    ensures |h[i].outputs| <= |h[k].outputs|
  {
    if i < k {
      OutputsStay(h, i, k - 1);
      assert Next(h[k - 1], h[k]);
    }
  }

  lemma HeldStays(s: State, e: Event, id: nat, p: Path)
    requires Inv(s) && Enabled(s, e) && id < |s.outputs| && Holds(s, id, p) && p in Apply(s, e).files
    ensures id < |Apply(s, e).outputs| && Holds(Apply(s, e), id, p)
  {
    hide IsTemporary, IsStdio, TempPath, Inv;
    StepKeepsInv(s, e);
    InvAt(Apply(s, e));
    assert Temporary(Apply(s, e), id) == Temporary(s, id);
  }

  lemma NewTemporaryIsCreated(s: State, e: Event, p: Path) returns (id: nat)
    requires Inv(s) && Enabled(s, e) && IsTemporary(s.process, p) && p !in s.files && p in Apply(s, e).files
    ensures id == |s.outputs| < |Apply(s, e).outputs| && Holds(Apply(s, e), id, p)
  {
    hide IsTemporary, IsStdio, TempPath, Inv;
    InvAt(s);
    id := |s.outputs|;
  }

  /** The temporary files that outputs `from` up to `end` have left behind. */
  ghost function LeftBehind(s: State, from: nat, end: nat): (r: set<Path>)
    requires from <= end <= |s.outputs|
    decreases end
  {
    if end == from then {}
    else LeftBehind(s, from, end - 1) + (if s.outputs[end - 1].phase == Leaked then {Temporary(s, end - 1)} else {})
  }

  /** How many of the first `n` outputs have left their temporary file behind. */
  function Leaks(s: State, n: nat): (r: nat)
    requires n <= |s.outputs|
  {
    if n == 0 then 0 else Leaks(s, n - 1) + if s.outputs[n - 1].phase == Leaked then 1 else 0
  }

  lemma {:induction false} LeftBehindIsCounted(s: State, from: nat, end: nat)
    requires from <= end <= |s.outputs|
    ensures |LeftBehind(s, from, end)| <= Leaks(s, end) - Leaks(s, from)
    ensures |LeftBehind(s, from, end)| <= end - from
    ensures forall id :: from <= id < end && s.outputs[id].phase == Leaked ==>
      Temporary(s, id) in LeftBehind(s, from, end)
    decreases end
  {
    hide TempPath;
    if from < end {
      LeftBehindIsCounted(s, from, end - 1);
    }
  }

  predicate SameOutputsBut(s: State, s': State, id: nat, n: nat) {
    n <= |s.outputs| && n <= |s'.outputs| && forall j :: 0 <= j < n && j != id ==> s'.outputs[j] == s.outputs[j]
  }

  lemma {:induction false} LeaksOfOthers(s: State, s': State, id: nat, n: nat)
    requires SameOutputsBut(s, s', id, n)
    ensures id >= n ==> Leaks(s', n) == Leaks(s, n)
    ensures id < n ==> Leaks(s', n) <= Leaks(s, n) + if s'.outputs[id].phase == Leaked then 1 else 0
  {
    if n > 0 {
      LeaksOfOthers(s, s', id, n - 1);
    }
  }

  // ---- Standard output ----

  /** One copy to standard output: the first `count` bytes of what output `id` was given. */
  datatype Emission = Emission(id: nat, count: nat)

  /** The copy is of an output that is past copying, and is complete unless that failed. */
  predicate EmissionOf(s: State, m: Emission) {
    && m.id < |s.outputs|
    && var o := s.outputs[m.id];
    && IsStdio(o.destination) && m.count <= |o.written|
    && o.phase !in {Writing, Flushed, Synced}
    && (o.phase in {Emitted, Committed} ==> m.count == |o.written|)
  }

  /** `ms` lists, in order, the copies of different outputs, among them every complete one. */
  ghost predicate EmissionsOf(s: State, ms: seq<Emission>) {
    && (forall i :: 0 <= i < |ms| ==> EmissionOf(s, ms[i]))
    && (forall i, j :: 0 <= i < j < |ms| ==> ms[i].id != ms[j].id)
    && (forall id :: 0 <= id < |s.outputs| ==> Listed(s, id, ms))
  }

  predicate Listed(s: State, id: nat, ms: seq<Emission>)
    requires id < |s.outputs|
  {
    var o := s.outputs[id];
    IsStdio(o.destination) && o.phase in {Emitted, Committed} ==> Emission(id, |o.written|) in ms
  }

  ghost function Transcript(s: State, ms: seq<Emission>): (r: Bytes)
    requires forall i :: 0 <= i < |ms| ==> EmissionOf(s, ms[i])
  {
    if ms == [] then [] else
    Transcript(s, ms[..|ms| - 1]) + Copied(s, ms[|ms| - 1])
  }

  function Copied(s: State, m: Emission): (r: Bytes)
    requires EmissionOf(s, m)
  {
    s.outputs[m.id].written[..m.count]
  }

  /** Standard output has received nothing but copies of outputs, one after another. */
  ghost predicate StdoutWhole(start: State, s: State) {
    exists ms :: EmissionsOf(s, ms) && s.stdout == start.stdout + Transcript(s, ms)
  }

  lemma EmissionStays(s: State, e: Event, m: Emission)
    requires Enabled(s, e) && EmissionOf(s, m)
    ensures EmissionOf(Apply(s, e), m) && Copied(Apply(s, e), m) == Copied(s, m)
    ensures e.Emit? ==> m.id != e.id
  {
    hide IsTemporary, IsStdio, TempPath;
  }

  lemma {:induction false} TranscriptStays(s: State, e: Event, ms: seq<Emission>)
    requires Enabled(s, e) && forall i :: 0 <= i < |ms| ==> EmissionOf(s, ms[i])
    ensures forall i :: 0 <= i < |ms| ==> EmissionOf(Apply(s, e), ms[i]) && (e.Emit? ==> ms[i].id != e.id)
    ensures Transcript(Apply(s, e), ms) == Transcript(s, ms)
  {
    hide Enabled, Apply, EmissionOf, Copied;
    if ms != [] {
      TranscriptStays(s, e, ms[..|ms| - 1]);
      EmissionStays(s, e, ms[|ms| - 1]);
    }
  }

  lemma ListedStays(s: State, e: Event, id: nat, ms: seq<Emission>)
    requires Enabled(s, e) && id < |s.outputs| && Listed(s, id, ms) && !(e.Emit? && e.id == id)
    ensures id < |Apply(s, e).outputs| && Listed(Apply(s, e), id, ms)
  {
    hide IsTemporary, IsStdio, TempPath;
  }

  /** A step that does not copy. */
  lemma SilentStep(s: State, e: Event, ms: seq<Emission>)
    requires Enabled(s, e) && !e.Emit? && EmissionsOf(s, ms)
    ensures EmissionsOf(Apply(s, e), ms) && Transcript(Apply(s, e), ms) == Transcript(s, ms)
    ensures Apply(s, e).stdout == s.stdout
  {
    hide EmissionOf, Listed, IsTemporary, IsStdio, TempPath;
    TranscriptStays(s, e, ms);
    var s' := Apply(s, e);
    forall id | 0 <= id < |s'.outputs|
      ensures Listed(s', id, ms)
    {
      if id < |s.outputs| {
        ListedStays(s, e, id, ms);
      } else {
        NewIsNotListed(s, e, ms);
      }
    }
  }

  lemma NewIsNotListed(s: State, e: Event, ms: seq<Emission>)
    requires Enabled(s, e) && |Apply(s, e).outputs| > |s.outputs|
    ensures |Apply(s, e).outputs| == |s.outputs| + 1 && Listed(Apply(s, e), |s.outputs|, ms)
  {
  }

  lemma CopyIsEmission(s: State, e: Event)
    requires Inv(s) && Enabled(s, e) && e.Emit?
    ensures var m := Emission(e.id, e.count);
            && e.id < |s.outputs|
            && EmissionOf(Apply(s, e), m) && Apply(s, e).stdout == s.stdout + Copied(Apply(s, e), m)
            && Listed(Apply(s, e), e.id, [m])
            && |Apply(s, e).outputs| == |s.outputs|
  {
    hide IsTemporary, IsStdio, TempPath;
    assert OutputInv(s, e.id);
  }

  lemma ListedInMore(s: State, id: nat, ms: seq<Emission>, more: seq<Emission>)
    requires id < |s.outputs| && (Listed(s, id, ms) || Listed(s, id, more))
    ensures Listed(s, id, ms + more)
  {
  }

  lemma CopyingStaysListed(s: State, e: Event, ms: seq<Emission>, m: Emission)
    requires Enabled(s, e) && e.Emit? && EmissionsOf(s, ms) && |Apply(s, e).outputs| == |s.outputs|
    requires e.id < |s.outputs| && Listed(Apply(s, e), e.id, [m])
    ensures forall id :: 0 <= id < |s.outputs| ==> Listed(Apply(s, e), id, ms + [m])
  {
    hide EmissionOf, Listed, Apply, Enabled;
    forall id | 0 <= id < |s.outputs|
      ensures Listed(Apply(s, e), id, ms + [m])
    {
      if id != e.id {
        ListedStays(s, e, id, ms);
      }
      ListedInMore(Apply(s, e), id, ms, [m]);
    }
  }

  lemma AppendEmission(s: State, ms: seq<Emission>, m: Emission)
    requires EmissionOf(s, m) && forall i :: 0 <= i < |ms| ==> EmissionOf(s, ms[i]) && ms[i].id != m.id
    requires forall i, j :: 0 <= i < j < |ms| ==> ms[i].id != ms[j].id
    requires forall id :: 0 <= id < |s.outputs| ==> Listed(s, id, ms + [m])
    ensures EmissionsOf(s, ms + [m]) && Transcript(s, ms + [m]) == Transcript(s, ms) + Copied(s, m)
  {
    hide EmissionOf, Listed, Copied;
    var ms' := ms + [m];
    assert ms'[..|ms'| - 1] == ms && ms'[|ms'| - 1] == m;
  }

  /** A step that copies adds its output to the list. */
  lemma CopyingStep(start: State, s: State, e: Event, ms: seq<Emission>)
    requires Inv(s) && Enabled(s, e) && e.Emit? && EmissionsOf(s, ms) && s.stdout == start.stdout + Transcript(s, ms)
    ensures StdoutWhole(start, Apply(s, e))
  {
    hide EmissionOf, Listed, Inv, Apply, Enabled, Copied;
    var s', m := Apply(s, e), Emission(e.id, e.count);
    TranscriptStays(s, e, ms);
    CopyIsEmission(s, e);
    CopyingStaysListed(s, e, ms, m);
    AppendEmission(s', ms, m);
    ConcatAssociative(start.stdout, Transcript(s, ms), Copied(s', m));
  }

  /** Over every run, standard output holds what it held at the start, followed by copies of
      different outputs one after another: whole ones for all outputs that were committed to it, and
      beginnings of others whose copying failed. */
  lemma {:induction false} StdoutIsWhole(h: seq<State>, k: nat)
    requires Run(h) && k < |h| && h[0].outputs == []
    ensures StdoutWhole(h[0], h[k])
  {
    hide Inv, EmissionOf, Listed;
    if k == 0 {
      assert EmissionsOf(h[0], []);
    } else {
      StdoutIsWhole(h, k - 1);
      RunKeepsInv(h, k - 1);
      var e :| Enabled(h[k - 1], e) && h[k] == Apply(h[k - 1], e);
      var ms :| EmissionsOf(h[k - 1], ms) && h[k - 1].stdout == h[0].stdout + Transcript(h[k - 1], ms);
      if e.Emit? {
        CopyingStep(h[0], h[k - 1], e, ms);
      } else {
        SilentStep(h[k - 1], e, ms);
      }
    }
  }
}
