// Every interleaving of pushes and key rotations refines accepting the mutations one at a time.
module PushRefinement {
  import opened Base
  import opened Json
  import opened Merge
  import opened Envelopes
  import opened SyncLog
  import opened PushProtocol

  // ----- reading a table of envelopes as a log of objects -----

  // The row with its envelope replaced by the object sealed in it.
  function Readable(v: Version): Version {
    if IsSealed(v) then v.(payload := Some(Plain(v.payload.value.envelope.ciphertext.plaintext))) else v
  }

  function ReadableRows(rows: seq<Version>): (log: Log)
    ensures |log| == |rows|
  {
    seq(|rows|, i requires 0 <= i < |rows| => Readable(rows[i]))
  }

  lemma ReadableKeepsMeaning(v: Version)
    ensures LogicalPayload(Readable(v)) == LogicalPayload(v)
    ensures RecordOf(Readable(v)) == RecordOf(v) && MutationOf(Readable(v)) == MutationOf(v)
  {
  }

  lemma ReadableNewest(rows: seq<Version>, key: RecordKey)
    ensures NewestIndex(ReadableRows(rows), key) == NewestIndex(rows, key)
  {
    var log := ReadableRows(rows);
    var a, b := NewestIndex(log, key), NewestIndex(rows, key);
    assert a >= 0 ==> RecordOf(log[a]) == RecordOf(rows[a]);
    assert b >= 0 ==> RecordOf(log[b]) == RecordOf(rows[b]);
  }

  lemma ReadableVersion(rows: seq<Version>, key: RecordKey, revision: string)
    ensures VersionIndex(ReadableRows(rows), key, revision) == VersionIndex(rows, key, revision)
  {
    var log := ReadableRows(rows);
    var a, b := VersionIndex(log, key, revision), VersionIndex(rows, key, revision);
    assert a < |rows| ==> RecordOf(log[a]) == RecordOf(rows[a]) && log[a].revision == rows[a].revision;
    assert b < |rows| ==> RecordOf(log[b]) == RecordOf(rows[b]) && log[b].revision == rows[b].revision;
  }

  lemma ReadableMutation(rows: seq<Version>, key: MutationKey)
    ensures MutationIndex(ReadableRows(rows), key) == MutationIndex(rows, key)
  {
    var log := ReadableRows(rows);
    var a, b := MutationIndex(log, key), MutationIndex(rows, key);
    assert a < |rows| ==> MutationOf(log[a]) == MutationOf(rows[a]);
    assert b < |rows| ==> MutationOf(log[b]) == MutationOf(rows[b]);
  }

  // A key that opens a row at all yields the object it stands for.
  lemma OpeningIsFaithful(keys: UserKeys, keyring: Keyring, v: Version)
    ensures ReadLogical(keys, keyring, v).Success? ==> ReadLogical(keys, keyring, v).value == LogicalPayload(v)
  {
  }

  // ----- what a call knows, against the log of the moment -----

  // The version a call holds as current is a version of its record in the log.
  ghost predicate CurrentKnown(log: Log, key: RecordKey, current: Option<Version>) {
    current.Some? ==> exists i :: 0 <= i < |log| && log[i] == Readable(current.value) && RecordOf(log[i]) == key
  }

  function ReadableOption(current: Option<Version>): Option<Version> {
    if current.None? then None else Some(Readable(current.value))
  }

  ghost predicate PhaseOk(log: Log, owner: string, m: Mutation, phase: Phase) {
    var key := Target(owner, m);
    match phase
    case FindReplay => true
    case ReadAncestor => true
    case OpenAncestor(row) => m.baseRevision.Some? && GetVersion(log, key, m.baseRevision.value) == Some(Readable(row))
    case ReadCurrent(ancestor, _) => ancestor == Ancestor(log, owner, m)
    case OpenCurrent(ancestor, _, _, current) => ancestor == Ancestor(log, owner, m) && CurrentKnown(log, key, current)
    case SealLogical(ancestor, _, _, current, logical) =>
      ancestor == Ancestor(log, owner, m) && CurrentKnown(log, key, current)
      && logical == Decide(ancestor, ReadableOption(current), m) && logical.Some?
    case InsertRow(ancestor, _, _, current, logical, stored) =>
      ancestor == Ancestor(log, owner, m) && CurrentKnown(log, key, current)
      && logical == Decide(ancestor, ReadableOption(current), m) && Stores(stored, logical)
    case FindConcurrent(ancestor, _) => ancestor == Ancestor(log, owner, m)
    case Finished(Answered(_, row)) =>
      MutationOf(row) == KeyOf(owner, m) && exists i :: 0 <= i < |log| && log[i] == Readable(row)
    case Finished(_) => true
  }

  // The payload column holds exactly the decided object.
  predicate Stores(stored: Option<Payload>, logical: Option<JsonObject>) {
    match logical
    case None => stored == None
    case Some(content) => stored.Some? && stored.value.Sealed? && stored.value.envelope.ciphertext.plaintext == content
  }

  // A row taken for re-encryption keeps its object.
  predicate JobOk(job: Job) {
    match job.phase
    case OpenOld(row) => true
    case Reseal(row, plaintext) => IsSealed(row) && plaintext == row.payload.value.envelope.ciphertext.plaintext
    case UpdateRow(row, envelope) =>
      IsSealed(row) && envelope.ciphertext.plaintext == row.payload.value.envelope.ciphertext.plaintext
    case DeleteKeys(_) => true
  }

  ghost predicate CallsOk(s: State) {
    forall id :: id in s.calls ==>
      && Request(s.calls[id].owner, s.calls[id].mutation) in s.requested
      && PhaseOk(Serial(s.accepted), s.calls[id].owner, s.calls[id].mutation, s.calls[id].phase)
  }

  ghost predicate JobsOk(s: State) {
    forall id :: id in s.jobs ==> JobOk(s.jobs[id])
  }

  // The table reads as the serial log of the accepted mutations, and every call under way
  // knows only what that log still says.
  ghost predicate Inv(s: State) {
    && ReadableRows(s.rows) == Serial(s.accepted)
    && WellFormed(s.rows)
    && CallsOk(s)
    && JobsOk(s)
    && (forall a :: a in s.accepted ==> Request(a.owner, a.mutation) in s.requested)
  }

  // ----- growth of the log -----

  lemma QueriesAfterAppend(log: Log, v: Version, key: RecordKey, revision: string)
    requires v.revision != revision
    ensures GetVersion(log + [v], key, revision) == GetVersion(log, key, revision)
  {
    var a, b := VersionIndex(log + [v], key, revision), VersionIndex(log, key, revision);
    assert b < |log| ==> (log + [v])[b] == log[b];
    assert a < |log| ==> (log + [v])[a] == log[a];
  }

  // What a call knows stays true when a row whose revision it never named is appended.
  lemma PhaseSurvivesAppend(log: Log, v: Version, owner: string, m: Mutation, phase: Phase)
    requires PhaseOk(log, owner, m, phase) && m.baseRevision != Some(v.revision)
    ensures PhaseOk(log + [v], owner, m, phase)
  {
    if m.baseRevision.Some? {
      QueriesAfterAppend(log, v, Target(owner, m), m.baseRevision.value);
    }
    assert forall i :: 0 <= i < |log| ==> (log + [v])[i] == log[i];
  }

  // ----- one statement at a time -----

  lemma ReplayIsKnown(rows: seq<Version>, key: MutationKey)
    ensures var found := FindMutation(rows, key);
      found.Some? ==> MutationOf(found.value) == key && exists i :: 0 <= i < |rows| && ReadableRows(rows)[i] == Readable(found.value)
  {
    var i := MutationIndex(rows, key);
    assert i < |rows| ==> ReadableRows(rows)[i] == Readable(rows[i]);
  }

  lemma CurrentIsKnown(rows: seq<Version>, key: RecordKey)
    ensures CurrentKnown(ReadableRows(rows), key, GetCurrent(rows, key))
  {
    var i := NewestIndex(rows, key);
    assert i >= 0 ==> ReadableRows(rows)[i] == Readable(rows[i]);
  }

  lemma AncestorIsKnown(rows: seq<Version>, keys: UserKeys, call: Call)
    requires call.phase.ReadAncestor? || call.phase.OpenAncestor?
    requires PhaseOk(ReadableRows(rows), call.owner, call.mutation, call.phase)
    ensures PhaseOk(ReadableRows(rows), call.owner, call.mutation, AdvancePhase(rows, keys, call))
  {
    var m := call.mutation;
    if m.baseRevision.Some? {
      ReadableVersion(rows, Target(call.owner, m), m.baseRevision.value);
    }
    if call.phase.OpenAncestor? {
      OpeningIsFaithful(keys, call.keyring, call.phase.row);
      ReadableKeepsMeaning(call.phase.row);
    }
  }

  lemma DecisionIsKnown(rows: seq<Version>, keys: UserKeys, call: Call)
    requires call.phase.OpenCurrent?
    requires PhaseOk(ReadableRows(rows), call.owner, call.mutation, call.phase)
    ensures PhaseOk(ReadableRows(rows), call.owner, call.mutation, AdvancePhase(rows, keys, call))
  {
    var current := call.phase.current;
    if current.Some? {
      OpeningIsFaithful(keys, call.keyring, current.value);
      ReadableKeepsMeaning(current.value);
    }
  }

  // The read-only statements of a call establish what its next phase relies on.
  lemma AdvanceEstablishesPhase(rows: seq<Version>, keys: UserKeys, call: Call)
    requires Reads(call.phase) && PhaseOk(ReadableRows(rows), call.owner, call.mutation, call.phase)
    ensures PhaseOk(ReadableRows(rows), call.owner, call.mutation, AdvancePhase(rows, keys, call))
  {
    match call.phase
    case FindReplay => ReplayIsKnown(rows, KeyOf(call.owner, call.mutation));
    case FindConcurrent(_, _) => ReplayIsKnown(rows, KeyOf(call.owner, call.mutation));
    case ReadAncestor => AncestorIsKnown(rows, keys, call);
    case OpenAncestor(_) => AncestorIsKnown(rows, keys, call);
    case ReadCurrent(_, _) => CurrentIsKnown(rows, Target(call.owner, call.mutation));
    case OpenCurrent(_, _, _, _) => DecisionIsKnown(rows, keys, call);
  }

  // When the expected revision is still current, the version the call read is still current.
  lemma ExpectedIsCurrent(rows: seq<Version>, key: RecordKey, current: Option<Version>)
    requires WellFormed(rows) && CurrentKnown(ReadableRows(rows), key, current)
    requires RevisionOf(GetCurrent(rows, key)) == RevisionOf(current)
    ensures GetCurrent(ReadableRows(rows), key) == ReadableOption(current)
  {
    var log := ReadableRows(rows);
    ReadableNewest(rows, key);
    var newest := NewestIndex(rows, key);
    if current.Some? {
      var i :| 0 <= i < |log| && log[i] == Readable(current.value) && RecordOf(log[i]) == key;
      assert RecordOf(rows[i]) == key && rows[i].revision == rows[newest].revision;
      assert i == newest;
    }
  }

  // The compare-and-append accepts a row only where it is the outcome of its mutation on
  // the log of that moment.
  lemma InsertIsOutcome(rows: seq<Version>, call: Call, sequence: nat, revision: string, createdAt: int)
    requires WellFormed(rows) && call.phase.InsertRow?
    requires PhaseOk(ReadableRows(rows), call.owner, call.mutation, call.phase)
    requires RevisionOf(GetCurrent(rows, Target(call.owner, call.mutation))) == RevisionOf(call.phase.current)
    ensures Readable(NewRow(call, sequence, revision, createdAt))
         == Outcome(ReadableRows(rows), Accepted(call.owner, call.mutation, sequence, revision, createdAt))
  {
    ExpectedIsCurrent(rows, Target(call.owner, call.mutation), call.phase.current);
  }

  lemma ReadableAppend(rows: seq<Version>, row: Version)
    ensures ReadableRows(rows + [row]) == ReadableRows(rows) + [Readable(row)]
  {
  }

  lemma CallsSurviveInsert(s: State, id: nat, row: Version, a: Accepted, phase: Phase)
    requires CallsOk(s) && id in s.calls
    requires Serial(s.accepted + [a]) == Serial(s.accepted) + [Readable(row)]
    requires forall r :: r in s.requested ==> r.mutation.baseRevision != Some(row.revision)
    requires PhaseOk(Serial(s.accepted + [a]), s.calls[id].owner, s.calls[id].mutation, phase)
    ensures CallsOk(SetPhase(s, id, phase).(rows := s.rows + [row], accepted := s.accepted + [a]))
  {
    forall other | other in s.calls && other != id
      ensures PhaseOk(Serial(s.accepted + [a]), s.calls[other].owner, s.calls[other].mutation, s.calls[other].phase)
    {
      assert Request(s.calls[other].owner, s.calls[other].mutation) in s.requested;
      PhaseSurvivesAppend(Serial(s.accepted), Readable(row), s.calls[other].owner, s.calls[other].mutation, s.calls[other].phase);
    }
  }

  lemma AppendPreservesInv(s: State, id: nat, row: Version, a: Accepted, phase: Phase)
    requires Inv(s) && id in s.calls && a.owner == s.calls[id].owner && a.mutation == s.calls[id].mutation
    requires Readable(row) == Outcome(Serial(s.accepted), a) && MutationOf(row) == KeyOf(a.owner, a.mutation)
    requires WellFormed(s.rows + [row])
    requires forall r :: r in s.requested ==> r.mutation.baseRevision != Some(row.revision)
    requires phase.Finished? && phase.result.Answered? && phase.result.row == row
    ensures Inv(SetPhase(s, id, phase).(rows := s.rows + [row], accepted := s.accepted + [a]))
  {
    ReadableAppend(s.rows, row);
    SerialAppend(s.accepted, a);
    assert Serial(s.accepted + [a])[|s.accepted|] == Readable(row);
    CallsSurviveInsert(s, id, row, a, phase);
  }

  lemma InsertPreservesInv(s: State, id: nat, sequence: nat, revision: string, createdAt: int)
    requires Inv(s) && Enabled(s, Insert(id, sequence, revision, createdAt))
    ensures Inv(InsertStep(s, id, sequence, revision, createdAt))
  {
    var call := s.calls[id];
    var row := NewRow(call, sequence, revision, createdAt);
    if Appends(s.rows, row, RevisionOf(call.phase.current)) {
      var a := Accepted(call.owner, call.mutation, sequence, revision, createdAt);
      var status := if Conflicted(call.phase.current, call.mutation) then Status.Merged else Applied;
      InsertIsOutcome(s.rows, call, sequence, revision, createdAt);
      AppendKeepsWellFormed(s.rows, row, RevisionOf(call.phase.current));
      AppendPreservesInv(s, id, row, a, Finished(Answered(status, row)));
    } else {
      PhaseChangeKeepsInv(s, id, FindConcurrent(call.phase.ancestor, call.phase.attempt));
    }
  }

  // A conditional update replaces an envelope by one of the same object.
  lemma UpdateKeepsReadable(rows: seq<Version>, row: Version, envelope: Envelope)
    requires IsSealed(row) && envelope.ciphertext.plaintext == row.payload.value.envelope.ciphertext.plaintext
    ensures ReadableRows(ReplacePayload(rows, row, envelope)) == ReadableRows(rows)
    ensures WellFormed(rows) ==> WellFormed(ReplacePayload(rows, row, envelope))
  {
    var updated := ReplacePayload(rows, row, envelope);
    forall i | 0 <= i < |rows|
      ensures Readable(updated[i]) == Readable(rows[i])
      ensures updated[i].sequence == rows[i].sequence && updated[i].revision == rows[i].revision
      ensures RecordOf(updated[i]) == RecordOf(rows[i]) && MutationOf(updated[i]) == MutationOf(rows[i])
    {
    }
  }

  lemma PhaseChangeKeepsInv(s: State, id: nat, phase: Phase)
    requires Inv(s) && id in s.calls
    requires PhaseOk(Serial(s.accepted), s.calls[id].owner, s.calls[id].mutation, phase)
    ensures Inv(SetPhase(s, id, phase))
  {
  }

  lemma JobChangeKeepsInv(s: State, jobs: map<nat, Job>)
    requires Inv(s) && forall id :: id in jobs ==> JobOk(jobs[id])
    ensures Inv(s.(jobs := jobs))
  {
  }

  lemma BeginOrCrashPreservesInv(s: State, e: Event)
    requires Inv(s) && Enabled(s, e) && (e.BeginPush? || e.Crash?)
    ensures Inv(Next(s, e))
  {
  }

  lemma SealPreservesInv(s: State, e: Event)
    requires Inv(s) && Enabled(s, e) && e.SealPayload?
    ensures Inv(Next(s, e))
  {
    PhaseChangeKeepsInv(s, e.id, Next(s, e).calls[e.id].phase);
  }

  lemma AdvancePreservesInv(s: State, id: nat)
    requires Inv(s) && Enabled(s, Advance(id))
    ensures Inv(Next(s, Advance(id)))
  {
    AdvanceEstablishesPhase(s.rows, s.keys, s.calls[id]);
    PhaseChangeKeepsInv(s, id, AdvancePhase(s.rows, s.keys, s.calls[id]));
  }

  lemma PushStepPreservesInv(s: State, e: Event)
    requires Inv(s) && Enabled(s, e) && IsPushStep(e)
    ensures Inv(Next(s, e))
  {
    match e
    case Advance(id) => AdvancePreservesInv(s, id);
    case SealPayload(_, _) => SealPreservesInv(s, e);
    case Insert(id, sequence, revision, createdAt) => InsertPreservesInv(s, id, sequence, revision, createdAt);
    case _ => BeginOrCrashPreservesInv(s, e);
  }

  predicate IsPushStep(e: Event) { e.BeginPush? || e.Advance? || e.SealPayload? || e.Insert? || e.Crash? }

  lemma UpdateStepPreservesInv(s: State, id: nat)
    requires Inv(s) && Enabled(s, UpdateForRotation(id))
    ensures Inv(Next(s, UpdateForRotation(id)))
  {
    var phase := s.jobs[id].phase;
    assert JobOk(s.jobs[id]);
    UpdateKeepsReadable(s.rows, phase.row, phase.envelope);
    JobChangeKeepsInv(s, s.jobs - {id});
  }

  lemma RotationStepKeepsJobs(s: State, e: Event)
    requires JobsOk(s) && Enabled(s, e) && !IsPushStep(e) && !e.UpdateForRotation?
    ensures JobsOk(Next(s, e))
  {
  }

  lemma RotationStepFrame(s: State, e: Event)
    requires Enabled(s, e) && !IsPushStep(e) && !e.UpdateForRotation?
    ensures var after := Next(s, e);
      after.rows == s.rows && after.accepted == s.accepted && after.calls == s.calls && after.requested == s.requested
  {
  }

  lemma RotationStepPreservesInv(s: State, e: Event)
    requires Inv(s) && Enabled(s, e) && !IsPushStep(e)
    ensures Inv(Next(s, e))
  {
    if e.UpdateForRotation? {
      UpdateStepPreservesInv(s, e.id);
    } else {
      RotationStepKeepsJobs(s, e);
      RotationStepFrame(s, e);
    }
  }

  lemma StepPreservesInv(s: State, e: Event)
    requires Inv(s)
    ensures Inv(Step(s, e))
  {
    if Enabled(s, e) {
      if IsPushStep(e) {
        PushStepPreservesInv(s, e);
      } else {
        RotationStepPreservesInv(s, e);
      }
    }
  }

  lemma {:induction false} RunPreservesInv(s: State, events: seq<Event>)
    requires Inv(s)
    ensures Inv(Run(s, events))
  {
    if events != [] {
      RunPreservesInv(s, events[..|events| - 1]);
      StepPreservesInv(Run(s, events[..|events| - 1]), events[|events| - 1]);
    }
  }

  // ----- the results -----

  // In every reachable state, whatever the interleaving: the table reads as the serial log of
  // accepted mutations, each of them once and each of them really pushed, and every record's
  // history is a single chain.
  lemma {:induction false} EveryInterleavingIsSerial(events: seq<Event>)
    ensures var s := Run(INITIAL, events);
      && ReadableRows(s.rows) == Serial(s.accepted)
      && (forall i, j :: 0 <= i < j < |s.rows| ==> MutationOf(s.rows[i]) != MutationOf(s.rows[j]))
      && (forall a :: a in s.accepted ==> Request(a.owner, a.mutation) in s.requested)
      && Chained(s.rows)
      && (forall i, j :: 0 <= i < j < |s.rows| && RecordOf(s.rows[i]) == RecordOf(s.rows[j]) ==>
           s.rows[i].baseRevision != s.rows[j].baseRevision)
  {
    var s := Run(INITIAL, events);
    assert Inv(INITIAL);
    RunPreservesInv(INITIAL, events);
    forall i | 0 <= i < |s.rows| ensures s.rows[i].baseRevision == RevisionOf(GetCurrent(s.rows[..i], RecordOf(s.rows[i]))) {
      VersionMeaning(s, i);
    }
    forall i, j | 0 <= i < j < |s.rows| && RecordOf(s.rows[i]) == RecordOf(s.rows[j])
      ensures s.rows[i].baseRevision != s.rows[j].baseRevision
    {
      ChainsNeverFork(s.rows, i, j);
    }
  }

  // Each version is the client's payload if its base was the version just before it, and
  // otherwise the three-way merge of the named ancestor, that version and the client.
  lemma VersionMeaning(s: State, i: nat)
    requires Inv(s) && i < |s.rows|
    ensures var a, row, before := s.accepted[i], s.rows[i], s.rows[..i];
      var m := a.mutation;
      var prior := GetCurrent(before, Target(a.owner, m));
      && RecordOf(row) == Target(a.owner, m) && MutationOf(row) == KeyOf(a.owner, m)
      && row.baseRevision == RevisionOf(prior) && (row.deleted <==> LogicalPayload(row).None?)
      && row.sequence == a.sequence && row.revision == a.revision && row.createdAt == a.createdAt
      && LogicalPayload(row)
         == if RevisionOf(prior) == m.baseRevision then ClientPayload(m)
            else ThreeWayMerge(Ancestor(before, a.owner, m), CurrentPayload(prior), ClientPayload(m))
  {
    var a, before := s.accepted[i], s.rows[..i];
    var key := Target(a.owner, a.mutation);
    assert ReadableRows(before) == Serial(s.accepted)[..i];
    SerialAt(s.accepted, i);
    assert Readable(s.rows[i]) == Serial(s.accepted)[i];
    ReadableKeepsMeaning(s.rows[i]);
    ReadableNewest(before, key);
    var n := NewestIndex(before, key);
    if n >= 0 {
      ReadableKeepsMeaning(before[n]);
    }
    if a.mutation.baseRevision.Some? {
      ReadableVersion(before, key, a.mutation.baseRevision.value);
      var v := VersionIndex(before, key, a.mutation.baseRevision.value);
      if v < i {
        ReadableKeepsMeaning(before[v]);
      }
    }
  }

  lemma StepGrowsAccepted(s: State, e: Event)
    ensures s.accepted <= Step(s, e).accepted
    ensures !e.Insert? ==> s.accepted == Step(s, e).accepted
  {
  }

  // Pushes only add to what the table says, and everything else leaves it as it is.
  lemma StepKeepsHistory(s: State, e: Event)
    requires Inv(s)
    ensures ReadableRows(s.rows) <= ReadableRows(Step(s, e).rows)
    ensures !e.Insert? ==> ReadableRows(s.rows) == ReadableRows(Step(s, e).rows)
  {
    StepPreservesInv(s, e);
    StepGrowsAccepted(s, e);
    assert Step(s, e).accepted[..|s.accepted|] == s.accepted;
    SerialPrefix(Step(s, e).accepted, |s.accepted|);
  }

  // Key rotation is invisible: along any run the object of a stored version never changes,
  // and versions are never lost or reordered.
  lemma {:induction false} RunKeepsHistory(s: State, events: seq<Event>)
    requires Inv(s)
    ensures Inv(Run(s, events)) && ReadableRows(s.rows) <= ReadableRows(Run(s, events).rows)
  {
    if events != [] {
      var n := |events| - 1;
      RunKeepsHistory(s, events[..n]);
      StepKeepsHistory(Run(s, events[..n]), events[n]);
      StepPreservesInv(Run(s, events[..n]), events[n]);
    }
  }

  // A mutation found once is found ever after, with the change it was first accepted as.
  lemma ReplayReturnsOriginal(s: State, events: seq<Event>, key: MutationKey)
    requires Inv(s) && FindMutation(s.rows, key).Some?
    ensures var later := FindMutation(Run(s, events).rows, key);
      later.Some? && Readable(later.value) == Readable(FindMutation(s.rows, key).value)
  {
    RunKeepsHistory(s, events);
    var rows, later := s.rows, Run(s, events).rows;
    var i := MutationIndex(rows, key);
    assert ReadableRows(rows)[i] == ReadableRows(later)[i];
    assert MutationOf(later[i]) == MutationOf(rows[i]);
    forall k | 0 <= k < i ensures MutationOf(later[k]) == MutationOf(rows[k]) {
      assert ReadableRows(rows)[k] == ReadableRows(later)[k];
    }
  }

  // The answer to a push names a stored version of that very mutation.
  lemma AnswersAreStored(events: seq<Event>, id: nat)
    requires var s := Run(INITIAL, events); id in s.calls && s.calls[id].phase.Finished? && s.calls[id].phase.result.Answered?
    ensures var s := Run(INITIAL, events);
      var call := s.calls[id];
      var stored := FindMutation(s.rows, KeyOf(call.owner, call.mutation));
      stored.Some? && Readable(stored.value) == Readable(call.phase.result.row)
  {
    assert Inv(INITIAL);
    RunPreservesInv(INITIAL, events);
    var s := Run(INITIAL, events);
    var call := s.calls[id];
    assert PhaseOk(Serial(s.accepted), call.owner, call.mutation, call.phase);
    StoredOnce(s.rows, call.phase.result.row);
  }

  lemma StoredOnce(rows: seq<Version>, row: Version)
    requires WellFormed(rows) && exists i :: 0 <= i < |rows| && ReadableRows(rows)[i] == Readable(row)
    ensures var stored := FindMutation(rows, MutationOf(row)); stored.Some? && Readable(stored.value) == Readable(row)
  {
    var i :| 0 <= i < |rows| && ReadableRows(rows)[i] == Readable(row);
    assert MutationOf(rows[i]) == MutationOf(row);
    assert MutationIndex(rows, MutationOf(row)) == i;
  }
}
