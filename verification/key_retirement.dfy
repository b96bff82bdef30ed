// Retiring a key version loses no payload when its writers are stopped first, and can
// lose one when they are not.
module KeyRetirement {
  import opened Base
  import opened Json
  import opened Envelopes
  import opened SyncLog
  import opened PushProtocol
  import opened PushRefinement

  // The user key the envelope was sealed with is still stored, and the envelope is bound to this record.
  predicate EnvelopeOpens(keys: UserKeys, key: RecordKey, envelope: Envelope) {
    && Slot(key.ownerSub, envelope.keyVersion) in keys
    && Decrypt(keys[Slot(key.ownerSub, envelope.keyVersion)], key.ownerSub, key.collection, key.recordId, envelope).Some?
  }

  predicate Opens(keys: UserKeys, v: Version) {
    IsSealed(v) ==> EnvelopeOpens(keys, RecordOf(v), v.payload.value.envelope)
  }

  ghost predicate AllOpen(keys: UserKeys, rows: seq<Version>) {
    forall i :: 0 <= i < |rows| ==> Opens(keys, rows[i])
  }

  // Any process that holds the row's master key reads the object the row stands for.
  lemma OpenRowsAreReadable(keys: UserKeys, keyring: Keyring, v: Version)
    requires Opens(keys, v) && (IsSealed(v) ==> v.payload.value.envelope.keyVersion in keyring.versions)
    requires v.payload.Some? ==> IsSealed(v)
    ensures ReadLogical(keys, keyring, v) == Success(LogicalPayload(v))
  {
  }

  // ----- the operator's discipline -----

  predicate Writes(call: Call, version: nat) { !call.phase.Finished? && call.keyring.currentVersion == version }

  predicate Rotates(job: Job, version: nat) { !job.phase.DeleteKeys? && job.keyring.currentVersion == version }

  // Writers of a version are stopped before it is retired and none starts afterwards.
  ghost predicate Disciplined(s: State, e: Event) {
    match e
    case BeginPush(_, _, _, keyring, _) => keyring.currentVersion !in s.paused
    case BeginRotation(_, keyring, _) => keyring.currentVersion !in s.paused
    case CreateKey(slot, _) => slot.keyVersion !in s.paused
    case Pause(version) =>
      && (forall id :: id in s.calls ==> !Writes(s.calls[id], version))
      && (forall id :: id in s.jobs ==> !Rotates(s.jobs[id], version))
    case CheckRetirement(_, _, version) => version in s.paused
    case _ => true
  }

  // A run in which every event that takes effect obeys the discipline.
  ghost predicate DisciplinedRun(s: State, events: seq<Event>) {
    events == [] || (
      var n := |events| - 1;
      DisciplinedRun(s, events[..n]) && (Enabled(Run(s, events[..n]), events[n]) ==> Disciplined(Run(s, events[..n]), events[n])))
  }

  // ----- the invariant -----

  ghost predicate CallOpens(s: State, call: Call) {
    && (forall version :: version in s.paused ==> !Writes(call, version))
    && (call.phase.InsertRow? && call.phase.stored.Some? && call.phase.stored.value.Sealed? ==>
         var envelope := call.phase.stored.value.envelope;
         envelope.keyVersion == call.keyring.currentVersion && EnvelopeOpens(s.keys, Target(call.owner, call.mutation), envelope))
    && (call.phase.InsertRow? && call.phase.stored.Some? ==> call.phase.stored.value.Sealed?)
  }

  // The row taken for re-encryption is a row of the table, with its sequence and record.
  ghost predicate Located(rows: seq<Version>, row: Version) {
    exists i :: 0 <= i < |rows| && rows[i].sequence == row.sequence && RecordOf(rows[i]) == RecordOf(row)
  }

  ghost predicate JobOpens(s: State, job: Job) {
    && (forall version :: version in s.paused ==> !Rotates(job, version))
    && match job.phase
      case OpenOld(row) => Located(s.rows, row)
      case Reseal(row, _) => Located(s.rows, row)
      case UpdateRow(row, envelope) =>
        Located(s.rows, row) && envelope.keyVersion == job.keyring.currentVersion && EnvelopeOpens(s.keys, RecordOf(row), envelope)
      case DeleteKeys(version) => version in s.paused && !Uses(s.rows, version)
  }

  ghost predicate OpenInv(s: State) {
    && WellFormed(s.rows)
    && AllOpen(s.keys, s.rows)
    && (forall i :: 0 <= i < |s.rows| && s.rows[i].payload.Some? ==> IsSealed(s.rows[i]))
    && (forall id :: id in s.calls ==> CallOpens(s, s.calls[id]))
    && (forall id :: id in s.jobs ==> JobOpens(s, s.jobs[id]))
  }

  lemma LocatedAfterAppend(rows: seq<Version>, more: seq<Version>, row: Version)
    requires Located(rows, row)
    ensures Located(rows + more, row)
  {
    var i :| 0 <= i < |rows| && rows[i].sequence == row.sequence && RecordOf(rows[i]) == RecordOf(row);
    assert (rows + more)[i] == rows[i];
  }

  lemma JobOpensAfterAppend(s: State, row: Version, job: Job, s': State)
    requires JobOpens(s, job) && s'.rows == s.rows + [row] && s'.keys == s.keys && s'.paused == s.paused
    requires IsSealed(row) ==> row.payload.value.envelope.keyVersion !in s.paused
    ensures JobOpens(s', job)
  {
    if !job.phase.DeleteKeys? {
      LocatedAfterAppend(s.rows, [row], job.phase.row);
    }
  }

  // The row a call inserts opens, and its version's writers are not paused.
  lemma InsertedRowOpens(s: State, call: Call, sequence: nat, revision: string, createdAt: int)
    requires CallOpens(s, call) && call.phase.InsertRow?
    ensures var row := NewRow(call, sequence, revision, createdAt);
      && Opens(s.keys, row) && (row.payload.Some? ==> IsSealed(row))
      && (IsSealed(row) ==> row.payload.value.envelope.keyVersion !in s.paused)
  {
    assert Writes(call, call.keyring.currentVersion);
  }

  // A call that only moves to its next phase disturbs nothing.
  lemma PhaseKeepsOpen(s: State, id: nat, phase: Phase)
    requires OpenInv(s) && id in s.calls && !s.calls[id].phase.Finished? && (phase.FindConcurrent? || phase.Finished?)
    ensures OpenInv(SetPhase(s, id, phase))
  {
    var after := SetPhase(s, id, phase);
    forall other | other in after.calls ensures CallOpens(after, after.calls[other]) {
      assert CallOpens(s, s.calls[other]);
    }
    forall job | job in s.jobs ensures JobOpens(after, s.jobs[job]) {
      assert JobOpens(s, s.jobs[job]);
    }
  }

  // Neither does a row that opens and has no paused version.
  lemma RowKeepsOpen(s: State, row: Version, a: Accepted)
    requires OpenInv(s) && WellFormed(s.rows + [row]) && Opens(s.keys, row) && (row.payload.Some? ==> IsSealed(row))
    requires IsSealed(row) ==> row.payload.value.envelope.keyVersion !in s.paused
    ensures OpenInv(s.(rows := s.rows + [row], accepted := s.accepted + [a]))
  {
    var after := s.(rows := s.rows + [row], accepted := s.accepted + [a]);
    InsertKeepsJobs(s, row, after);
    forall i | 0 <= i < |after.rows| ensures Opens(after.keys, after.rows[i]) {
      assert i < |s.rows| ==> Opens(s.keys, s.rows[i]);
    }
    forall id | id in after.calls ensures CallOpens(after, after.calls[id]) {
      assert CallOpens(s, s.calls[id]);
    }
  }

  lemma InsertKeepsOpen(s: State, id: nat, sequence: nat, revision: string, createdAt: int)
    requires OpenInv(s) && Enabled(s, Insert(id, sequence, revision, createdAt))
    ensures OpenInv(InsertStep(s, id, sequence, revision, createdAt))
  {
    var call := s.calls[id];
    var row := NewRow(call, sequence, revision, createdAt);
    var after := InsertStep(s, id, sequence, revision, createdAt);
    PhaseKeepsOpen(s, id, after.calls[id].phase);
    if Appends(s.rows, row, RevisionOf(call.phase.current)) {
      assert CallOpens(s, call);
      InsertedRowOpens(s, call, sequence, revision, createdAt);
      AppendKeepsWellFormed(s.rows, row, RevisionOf(call.phase.current));
      RowKeepsOpen(SetPhase(s, id, after.calls[id].phase), row, Accepted(call.owner, call.mutation, sequence, revision, createdAt));
    }
  }

  lemma InsertKeepsJobs(s: State, row: Version, after: State)
    requires OpenInv(s) && after.rows == s.rows + [row] && after.keys == s.keys && after.paused == s.paused && after.jobs == s.jobs
    requires IsSealed(row) ==> row.payload.value.envelope.keyVersion !in s.paused
    ensures forall id :: id in after.jobs ==> JobOpens(after, after.jobs[id])
  {
    forall id | id in after.jobs ensures JobOpens(after, after.jobs[id]) {
      assert JobOpens(s, s.jobs[id]);
      JobOpensAfterAppend(s, row, s.jobs[id], after);
    }
  }

  lemma LocatedAfterUpdate(rows: seq<Version>, updated: seq<Version>, row: Version)
    requires Located(rows, row) && |updated| == |rows|
    requires forall i :: 0 <= i < |rows| ==> updated[i].sequence == rows[i].sequence && RecordOf(updated[i]) == RecordOf(rows[i])
    ensures Located(updated, row)
  {
    var i :| 0 <= i < |rows| && rows[i].sequence == row.sequence && RecordOf(rows[i]) == RecordOf(row);
    assert updated[i].sequence == row.sequence && RecordOf(updated[i]) == RecordOf(row);
  }

  // The conditional update stores an envelope that opens, and none of a paused version.
  lemma UpdateKeepsRowsOpen(s: State, row: Version, envelope: Envelope)
    requires OpenInv(s) && Located(s.rows, row) && EnvelopeOpens(s.keys, RecordOf(row), envelope)
    ensures var updated := ReplacePayload(s.rows, row, envelope);
      && AllOpen(s.keys, updated)
      && (forall i :: 0 <= i < |updated| && updated[i].payload.Some? ==> IsSealed(updated[i]))
      && (forall version :: version != envelope.keyVersion && !Uses(s.rows, version) ==> !Uses(updated, version))
  {
    var updated := ReplacePayload(s.rows, row, envelope);
    var k :| 0 <= k < |s.rows| && s.rows[k].sequence == row.sequence && RecordOf(s.rows[k]) == RecordOf(row);
    forall i | 0 <= i < |updated| ensures Opens(s.keys, updated[i]) {
      assert Opens(s.keys, s.rows[i]);
      if updated[i] != s.rows[i] {
        assert i == k;
      }
    }
    forall version | version != envelope.keyVersion && !Uses(s.rows, version) ensures !Uses(updated, version) {
      assert forall i :: 0 <= i < |updated| ==> UsesVersion(updated[i], version) ==> UsesVersion(s.rows[i], version);
    }
  }

  lemma UpdateKeepsHeaders(rows: seq<Version>, row: Version, envelope: Envelope)
    ensures var updated := ReplacePayload(rows, row, envelope);
      && (forall i :: 0 <= i < |rows| ==> updated[i].sequence == rows[i].sequence && RecordOf(updated[i]) == RecordOf(rows[i]))
      && (WellFormed(rows) ==> WellFormed(updated))
  {
    var updated := ReplacePayload(rows, row, envelope);
    forall i | 0 <= i < |rows|
      ensures updated[i].sequence == rows[i].sequence && updated[i].revision == rows[i].revision
      ensures RecordOf(updated[i]) == RecordOf(rows[i]) && MutationOf(updated[i]) == MutationOf(rows[i])
    {
    }
  }

  lemma UpdateKeepsOpen(s: State, id: nat)
    requires OpenInv(s) && Enabled(s, UpdateForRotation(id))
    ensures OpenInv(Next(s, UpdateForRotation(id)))
  {
    var job, after := s.jobs[id], Next(s, UpdateForRotation(id));
    var row, envelope := job.phase.row, job.phase.envelope;
    assert JobOpens(s, job) && Rotates(job, envelope.keyVersion);
    UpdateKeepsRowsOpen(s, row, envelope);
    UpdateKeepsHeaders(s.rows, row, envelope);
    forall other | other in after.jobs ensures JobOpens(after, after.jobs[other]) {
      assert JobOpens(s, s.jobs[other]);
      if !s.jobs[other].phase.DeleteKeys? {
        LocatedAfterUpdate(s.rows, after.rows, s.jobs[other].phase.row);
      }
    }
  }

  lemma DeleteKeepsOpen(s: State, id: nat)
    requires OpenInv(s) && Enabled(s, DeleteRetiredKeys(id))
    ensures OpenInv(Next(s, DeleteRetiredKeys(id)))
  {
    var after, version := Next(s, DeleteRetiredKeys(id)), s.jobs[id].phase.version;
    assert JobOpens(s, s.jobs[id]);
    assert forall i :: 0 <= i < |s.rows| ==> !UsesVersion(s.rows[i], version);
    forall other | other in s.calls ensures CallOpens(after, s.calls[other]) {
      assert CallOpens(s, s.calls[other]) && !Writes(s.calls[other], version);
    }
    forall other | other in after.jobs ensures JobOpens(after, after.jobs[other]) {
      assert JobOpens(s, s.jobs[other]) && !Rotates(s.jobs[other], version);
    }
  }

  lemma AdvanceKeepsOpen(s: State, id: nat)
    requires OpenInv(s) && Enabled(s, Advance(id))
    ensures OpenInv(Next(s, Advance(id)))
  {
    var after := Next(s, Advance(id));
    assert CallOpens(s, s.calls[id]);
    assert CallOpens(after, after.calls[id]);
  }

  lemma CallStepKeepsOpen(s: State, e: Event)
    requires OpenInv(s) && Enabled(s, e) && Disciplined(s, e)
    requires e.BeginPush? || e.SealPayload? || e.Crash?
    ensures OpenInv(Next(s, e))
  {
    var after := Next(s, e);
    if e.SealPayload? {
      assert CallOpens(s, s.calls[e.id]);
      assert CallOpens(after, after.calls[e.id]);
    }
  }

  lemma KeyStepKeepsOpen(s: State, e: Event)
    requires OpenInv(s) && Enabled(s, e) && Disciplined(s, e)
    requires e.CreateKey? || e.Pause?
    ensures OpenInv(Next(s, e))
  {
    var after := Next(s, e);
    forall i | 0 <= i < |s.rows| ensures Opens(after.keys, s.rows[i]) {
      assert Opens(s.keys, s.rows[i]);
    }
    forall id | id in s.calls ensures CallOpens(after, s.calls[id]) {
      assert CallOpens(s, s.calls[id]);
    }
    forall id | id in s.jobs ensures JobOpens(after, s.jobs[id]) {
      assert JobOpens(s, s.jobs[id]);
    }
  }

  lemma JobChangeKeepsOpen(s: State, jobs: map<nat, Job>, nonces: set<nat>)
    requires OpenInv(s) && forall id :: id in jobs ==> JobOpens(s, jobs[id])
    ensures OpenInv(s.(jobs := jobs, nonces := nonces))
  {
    var after := s.(jobs := jobs, nonces := nonces);
    forall id | id in s.calls ensures CallOpens(after, s.calls[id]) {
      assert CallOpens(s, s.calls[id]);
    }
    forall id | id in jobs ensures JobOpens(after, jobs[id]) {
      assert JobOpens(s, jobs[id]);
    }
  }

  lemma BeginJobKeepsOpen(s: State, e: Event)
    requires OpenInv(s) && Enabled(s, e) && Disciplined(s, e)
    requires e.BeginRotation? || e.CheckRetirement?
    ensures OpenInv(Next(s, e))
  {
    if e.BeginRotation? {
      assert Located(s.rows, s.rows[e.index]);
    }
    JobChangeKeepsOpen(s, Next(s, e).jobs, s.nonces);
  }

  lemma ContinueJobKeepsOpen(s: State, e: Event)
    requires OpenInv(s) && Enabled(s, e)
    requires e.OpenForRotation? || e.SealForRotation?
    ensures OpenInv(Next(s, e))
  {
    var jobs := Next(s, e).jobs;
    assert JobOpens(s, s.jobs[e.id]);
    assert e.id in jobs ==> JobOpens(s, jobs[e.id]);
    JobChangeKeepsOpen(s, jobs, Next(s, e).nonces);
  }

  lemma StepKeepsOpen(s: State, e: Event)
    requires OpenInv(s) && (Enabled(s, e) ==> Disciplined(s, e))
    ensures OpenInv(Step(s, e))
  {
    if Enabled(s, e) {
      match e
      case Advance(id) => AdvanceKeepsOpen(s, id);
      case Insert(id, sequence, revision, createdAt) => InsertKeepsOpen(s, id, sequence, revision, createdAt);
      case UpdateForRotation(id) => UpdateKeepsOpen(s, id);
      case DeleteRetiredKeys(id) => DeleteKeepsOpen(s, id);
      case CreateKey(_, _) => KeyStepKeepsOpen(s, e);
      case Pause(_) => KeyStepKeepsOpen(s, e);
      case BeginPush(_, _, _, _, _) => CallStepKeepsOpen(s, e);
      case SealPayload(_, _) => CallStepKeepsOpen(s, e);
      case Crash(_) => CallStepKeepsOpen(s, e);
      case BeginRotation(_, _, _) => BeginJobKeepsOpen(s, e);
      case CheckRetirement(_, _, _) => BeginJobKeepsOpen(s, e);
      case _ => ContinueJobKeepsOpen(s, e);
    }
  }

  lemma {:induction false} RunKeepsOpen(s: State, events: seq<Event>)
    requires OpenInv(s) && DisciplinedRun(s, events)
    ensures OpenInv(Run(s, events))
  {
    if events != [] {
      RunKeepsOpen(s, events[..|events| - 1]);
      StepKeepsOpen(Run(s, events[..|events| - 1]), events[|events| - 1]);
    }
  }

  // In every disciplined run, with any number of retirements, every stored envelope opens and
  // yields the object that was accepted.
  lemma {:induction false} DisciplinedRetirementLosesNothing(events: seq<Event>, keyring: Keyring, i: nat)
    requires DisciplinedRun(INITIAL, events)
    requires i < |Run(INITIAL, events).rows|
    requires var v := Run(INITIAL, events).rows[i]; IsSealed(v) ==> v.payload.value.envelope.keyVersion in keyring.versions
    ensures |Run(INITIAL, events).accepted| == |Run(INITIAL, events).rows|
    ensures var s := Run(INITIAL, events);
      ReadLogical(s.keys, keyring, s.rows[i]) == Success(LogicalPayload(Serial(s.accepted)[i]))
  {
    RunKeepsOpen(INITIAL, events);
    assert Inv(INITIAL);
    RunPreservesInv(INITIAL, events);
    var s := Run(INITIAL, events);
    OpenRowsAreReadable(s.keys, keyring, s.rows[i]);
    ReadableKeepsMeaning(s.rows[i]);
    assert ReadableRows(s.rows)[i] == Readable(s.rows[i]);
  }

  // ----- without the discipline -----

  lemma OpensWithoutVersion(keys: UserKeys, version: nat, record: RecordKey, envelope: Envelope)
    ensures EnvelopeOpens(WithoutVersion(keys, version), record, envelope)
      <==> envelope.keyVersion != version && EnvelopeOpens(keys, record, envelope)
  {
  }

  // The deletion statement alone: everything stored opens after it exactly when everything opened
  // before and no stored envelope has the version. What is stored afterwards is another matter.
  lemma DeletionIsSafeIff(keys: UserKeys, rows: seq<Version>, version: nat)
    ensures AllOpen(WithoutVersion(keys, version), rows) <==> AllOpen(keys, rows) && !Uses(rows, version)
  {
    forall i | 0 <= i < |rows|
      ensures Opens(WithoutVersion(keys, version), rows[i]) <==> Opens(keys, rows[i]) && !UsesVersion(rows[i], version)
    {
      if IsSealed(rows[i]) {
        OpensWithoutVersion(keys, version, RecordOf(rows[i]), rows[i].payload.value.envelope);
      }
    }
    if AllOpen(WithoutVersion(keys, version), rows) {
      forall i | 0 <= i < |rows| ensures Opens(keys, rows[i]) && !UsesVersion(rows[i], version) {
        assert Opens(WithoutVersion(keys, version), rows[i]);
      }
    }
  }

  lemma RunOneMore(s: State, events: seq<Event>, e: Event)
    ensures Run(s, events + [e]) == Step(Run(s, events), e)
  {
    assert (events + [e])[..|events|] == events;
  }

  // One push by a writer whose current version is 1, on an empty table.
  function Pushing(m: Mutation, phase: Phase, keys: UserKeys, nonces: set<nat>): State {
    INITIAL.(nonces := nonces, calls := map[0 := Call("owner", m, Keyring(1, {1}), 3, 0, phase)], requested := {Request("owner", m)}, keys := keys)
  }

  lemma AdvanceAlone(m: Mutation, phase: Phase, next: Phase)
    requires Reads(phase) && AdvancePhase([], map[], Pushing(m, phase, map[], {}).calls[0]) == next
    ensures Step(Pushing(m, phase, map[], {}), Advance(0)) == Pushing(m, next, map[], {})
  {
  }

  // The writer's statements up to the point where its payload is decided.
  lemma DecidedAndWaiting(m: Mutation) returns (events: seq<Event>)
    requires m.operation == PutRecord && m.payload.Some? && m.baseRevision == None
    ensures Run(INITIAL, events) == Pushing(m, SealLogical(None, 0, 0, None, m.payload), map[], {})
  {
    var begin := BeginPush(0, "owner", m, Keyring(1, {1}), None);
    RunOneMore(INITIAL, [], begin);
    var steps := [FindReplay, ReadAncestor, ReadCurrent(None, 0), OpenCurrent(None, 0, 0, None), SealLogical(None, 0, 0, None, m.payload)];
    events := [] + [begin];
    for i := 0 to 4
      invariant Run(INITIAL, events) == Pushing(m, steps[i], map[], {})
    {
      AdvanceAlone(m, steps[i], steps[i + 1]);
      RunOneMore(INITIAL, events, Advance(0));
      events := events + [Advance(0)];
    }
  }

  // And on to where it is sealed and waits to be inserted.
  lemma SealedAndWaiting(m: Mutation) returns (events: seq<Event>, envelope: Envelope)
    requires m.operation == PutRecord && m.payload.Some? && m.baseRevision == None
    ensures envelope.keyVersion == 1
    ensures Run(INITIAL, events) == Pushing(m, InsertRow(None, 0, 0, None, m.payload, Some(Sealed(envelope))), map[Slot("owner", 1) := 7], {0})
  {
    events := DecidedAndWaiting(m);
    RunOneMore(INITIAL, events, CreateKey(Slot("owner", 1), 7));
    events := events + [CreateKey(Slot("owner", 1), 7)];
    RunOneMore(INITIAL, events, SealPayload(0, 0));
    events := events + [SealPayload(0, 0)];
    envelope := Encrypt(7, Aad("owner", m.collection, m.recordId, 1), 0, m.payload.value);
  }

  // If a writer of the version is still under way, its payload can be stored after the keys
  // were deleted, and is then lost.
  lemma UndisciplinedRetirementLosesPayload(m: Mutation) returns (events: seq<Event>)
    requires m.operation == PutRecord && m.payload.Some? && m.baseRevision == None
    ensures var s := Run(INITIAL, events);
      |s.rows| == 1 && !Opens(s.keys, s.rows[0])
  {
    var envelope;
    events, envelope := SealedAndWaiting(m);
    var check, delete, insert := CheckRetirement(1, Keyring(2, {1, 2}), 1), DeleteRetiredKeys(1), Insert(0, 1, "r", 0);
    RunOneMore(INITIAL, events, check);
    events := events + [check];
    RunOneMore(INITIAL, events, delete);
    events := events + [delete];
    assert Run(INITIAL, events).keys == map[];
    RunOneMore(INITIAL, events, insert);
    events := events + [insert];
  }
}
