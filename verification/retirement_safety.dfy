// When deleting a version's user keys is safe for every way the run can continue, with any
// calls and rotations under way.
module RetirementSafety {
  import opened Base
  import opened Json
  import opened Envelopes
  import opened SyncLog
  import opened PushProtocol
  import opened PushRefinement
  import opened KeyRetirement

  // ----- envelopes on their way into the table -----

  datatype Holder = ByCall(id: nat) | ByJob(id: nat)

  // The envelope a call or a rotation has sealed and not yet stored.
  function Pending(s: State, h: Holder): Option<Envelope> {
    match h
    case ByCall(id) =>
      if id in s.calls && s.calls[id].phase.InsertRow? && s.calls[id].phase.stored.Some? && s.calls[id].phase.stored.value.Sealed?
      then Some(s.calls[id].phase.stored.value.envelope) else None
    case ByJob(id) => if id in s.jobs && s.jobs[id].phase.UpdateRow? then Some(s.jobs[id].phase.envelope) else None
  }

  predicate HasNonce(v: Version, nonce: nat) { IsSealed(v) && v.payload.value.envelope.nonce == nonce }

  // The row a rotation took, as it was then.
  predicate Took(job: Job, nonce: nat) { !job.phase.DeleteKeys? && HasNonce(job.phase.row, nonce) }

  // Neither stored nor taken by a rotation.
  ghost predicate Unseen(s: State, nonce: nat) {
    && (forall i :: 0 <= i < |s.rows| ==> !HasNonce(s.rows[i], nonce))
    && (forall id :: id in s.jobs ==> !Took(s.jobs[id], nonce))
  }

  // Every nonce in use was drawn, and no pending envelope shares its nonce with any other.
  ghost predicate NoncesOk(s: State) {
    && (forall nonce :: nonce !in s.nonces ==> Unseen(s, nonce))
    && (forall h :: Pending(s, h).Some? ==> Pending(s, h).value.nonce in s.nonces && Unseen(s, Pending(s, h).value.nonce))
    && (forall g, h :: g != h && Pending(s, g).Some? && Pending(s, h).Some? ==> Pending(s, g).value.nonce != Pending(s, h).value.nonce)
  }

  ghost predicate JobsLocated(s: State) {
    forall id :: id in s.jobs && !s.jobs[id].phase.DeleteKeys? ==> Located(s.rows, s.jobs[id].phase.row)
  }

  // What holds in every reachable state.
  ghost predicate Tracked(s: State) { Inv(s) && NoncesOk(s) && JobsLocated(s) }

  // ----- what would still take effect -----

  // The call's insert would append its row.
  predicate StillAppends(rows: seq<Version>, call: Call)
    requires call.phase.InsertRow?
  {
    RevisionOf(GetCurrent(rows, Target(call.owner, call.mutation))) == RevisionOf(call.phase.current)
    && FindMutation(rows, KeyOf(call.owner, call.mutation)).None?
  }

  // The rotation's update would find the envelope it read.
  ghost predicate StillMatches(rows: seq<Version>, row: Version) {
    exists i :: 0 <= i < |rows| && rows[i].sequence == row.sequence && rows[i].payload == row.payload
  }

  ghost predicate CallSafe(s: State, id: nat) {
    id in s.calls && Pending(s, ByCall(id)).Some? && StillAppends(s.rows, s.calls[id]) ==>
      EnvelopeOpens(s.keys, Target(s.calls[id].owner, s.calls[id].mutation), Pending(s, ByCall(id)).value)
  }

  ghost predicate JobSafe(s: State, id: nat) {
    id in s.jobs && s.jobs[id].phase.UpdateRow? && StillMatches(s.rows, s.jobs[id].phase.row) ==>
      EnvelopeOpens(s.keys, RecordOf(s.jobs[id].phase.row), s.jobs[id].phase.envelope)
  }

  // Everything stored opens, and so does everything that can still be stored.
  ghost predicate Safe(s: State) {
    && AllOpen(s.keys, s.rows)
    && (forall id :: id in s.calls ==> CallSafe(s, id))
    && (forall id :: id in s.jobs ==> JobSafe(s, id))
  }

  // ----- nonces and locations are kept by every step -----

  lemma InsertKeepsNonces(s: State, id: nat, sequence: nat, revision: string, createdAt: int)
    requires NoncesOk(s) && Enabled(s, Insert(id, sequence, revision, createdAt))
    ensures NoncesOk(InsertStep(s, id, sequence, revision, createdAt))
  {
    var after := InsertStep(s, id, sequence, revision, createdAt);
    var row := NewRow(s.calls[id], sequence, revision, createdAt);
    assert forall h :: Pending(after, h).Some? ==> h != ByCall(id) && Pending(after, h) == Pending(s, h);
    assert forall nonce :: HasNonce(row, nonce) ==> Pending(s, ByCall(id)).Some? && Pending(s, ByCall(id)).value.nonce == nonce;
    forall nonce | Unseen(s, nonce) && !HasNonce(row, nonce) ensures Unseen(after, nonce) {
    }
  }

  lemma SealKeepsNonces(s: State, e: Event)
    requires NoncesOk(s) && Enabled(s, e) && (e.SealPayload? || e.SealForRotation?)
    ensures NoncesOk(Next(s, e))
  {
    var after := Next(s, e);
    var mine := if e.SealPayload? then ByCall(e.id) else ByJob(e.id);
    forall nonce | Unseen(s, nonce) ensures Unseen(after, nonce) {
      forall id | id in after.jobs ensures !Took(after.jobs[id], nonce) {
        assert !Took(s.jobs[id], nonce);
      }
    }
    assert forall h :: h != mine ==> Pending(after, h) == Pending(s, h);
    assert Pending(after, mine).Some? ==> Pending(after, mine).value.nonce == e.nonce;
  }

  lemma UpdateKeepsNonces(s: State, id: nat)
    requires NoncesOk(s) && Enabled(s, UpdateForRotation(id))
    ensures NoncesOk(Next(s, UpdateForRotation(id)))
  {
    var after := Next(s, UpdateForRotation(id));
    var row, envelope := s.jobs[id].phase.row, s.jobs[id].phase.envelope;
    assert Pending(s, ByJob(id)) == Some(envelope);
    forall nonce | Unseen(s, nonce) && nonce != envelope.nonce ensures Unseen(after, nonce) {
      forall i | 0 <= i < |after.rows| ensures !HasNonce(after.rows[i], nonce) {
        assert !HasNonce(s.rows[i], nonce);
      }
    }
    assert forall h :: Pending(after, h).Some? ==> h != ByJob(id) && Pending(after, h) == Pending(s, h);
  }

  // The remaining steps neither seal nor store; a rotation that begins takes a stored row.
  lemma OtherKeepsUnseen(s: State, e: Event, nonce: nat)
    requires Unseen(s, nonce) && Enabled(s, e)
    requires !e.Insert? && !e.SealPayload? && !e.SealForRotation? && !e.UpdateForRotation?
    ensures Unseen(Next(s, e), nonce)
  {
    var after := Next(s, e);
    assert after.rows == s.rows;
    forall id | id in after.jobs ensures !Took(after.jobs[id], nonce) {
      assert id in s.jobs ==> !Took(s.jobs[id], nonce);
      assert e.BeginRotation? && id == e.id ==> !HasNonce(s.rows[e.index], nonce);
    }
  }

  lemma OtherKeepsPending(s: State, e: Event, h: Holder)
    requires Enabled(s, e) && !e.Insert? && !e.SealPayload? && !e.SealForRotation? && !e.UpdateForRotation?
    ensures Pending(Next(s, e), h).Some? ==> Pending(Next(s, e), h) == Pending(s, h)
  {
  }

  lemma OtherKeepsNonces(s: State, e: Event)
    requires NoncesOk(s) && Enabled(s, e) && !e.Insert? && !e.SealPayload? && !e.SealForRotation? && !e.UpdateForRotation?
    ensures NoncesOk(Next(s, e))
  {
    forall nonce | Unseen(s, nonce) ensures Unseen(Next(s, e), nonce) {
      OtherKeepsUnseen(s, e, nonce);
    }
    forall h | Pending(Next(s, e), h).Some? ensures Pending(Next(s, e), h) == Pending(s, h) {
      OtherKeepsPending(s, e, h);
    }
    assert Next(s, e).nonces == s.nonces;
  }

  lemma StepKeepsLocated(s: State, e: Event)
    requires JobsLocated(s)
    ensures JobsLocated(Step(s, e))
  {
    var after := Step(s, e);
    forall id | id in after.jobs && !after.jobs[id].phase.DeleteKeys? ensures Located(after.rows, after.jobs[id].phase.row) {
      if Enabled(s, e) && e.BeginRotation? && id == e.id {
        assert s.rows[e.index].sequence == after.jobs[id].phase.row.sequence;
      } else if Enabled(s, e) && e.Insert? && |after.rows| > |s.rows| {
        LocatedAfterAppend(s.rows, [after.rows[|s.rows|]], s.jobs[id].phase.row);
      } else if Enabled(s, e) && e.UpdateForRotation? {
        LocatedAfterUpdate(s.rows, after.rows, s.jobs[id].phase.row);
      }
    }
  }

  lemma StepKeepsNonces(s: State, e: Event)
    requires NoncesOk(s)
    ensures NoncesOk(Step(s, e))
  {
    if Enabled(s, e) {
      match e
      case Insert(id, sequence, revision, createdAt) => InsertKeepsNonces(s, id, sequence, revision, createdAt);
      case SealPayload(_, _) => SealKeepsNonces(s, e);
      case SealForRotation(_, _) => SealKeepsNonces(s, e);
      case UpdateForRotation(id) => UpdateKeepsNonces(s, id);
      case _ => OtherKeepsNonces(s, e);
    }
  }

  lemma StepKeepsTracked(s: State, e: Event)
    requires Tracked(s)
    ensures Tracked(Step(s, e))
  {
    StepPreservesInv(s, e);
    StepKeepsLocated(s, e);
    StepKeepsNonces(s, e);
  }

  lemma {:induction false} RunKeepsTracked(s: State, events: seq<Event>)
    requires Tracked(s)
    ensures Tracked(Run(s, events))
  {
    if events != [] {
      RunKeepsTracked(s, events[..|events| - 1]);
      StepKeepsTracked(Run(s, events[..|events| - 1]), events[|events| - 1]);
    }
  }

  lemma InitialTracked()
    ensures Tracked(INITIAL)
  {
  }

  // ----- what no longer takes effect never does again -----

  // A new row's revision is none that a call holds as current.
  lemma KnownIsOlder(rows: seq<Version>, key: RecordKey, current: Option<Version>, row: Version)
    requires CurrentKnown(ReadableRows(rows), key, current) && FreshRow(rows, row)
    ensures RevisionOf(current) != Some(row.revision)
  {
    if current.Some? {
      var log := ReadableRows(rows);
      var i :| 0 <= i < |log| && log[i] == Readable(current.value) && RecordOf(log[i]) == key;
      assert rows[i].revision == current.value.revision;
    }
  }

  // A call whose expected revision is no longer current stays refused.
  lemma RefusedStaysRefused(rows: seq<Version>, call: Call, row: Version)
    requires call.phase.InsertRow? && FreshRow(rows, row)
    requires CurrentKnown(ReadableRows(rows), Target(call.owner, call.mutation), call.phase.current)
    ensures StillAppends(rows + [row], call) ==> StillAppends(rows, call)
  {
    assert (rows + [row])[..|rows|] == rows;
    FindShrinks(rows, row, KeyOf(call.owner, call.mutation));
    KnownIsOlder(rows, Target(call.owner, call.mutation), call.phase.current, row);
  }

  lemma FindShrinks(rows: seq<Version>, row: Version, key: MutationKey)
    ensures FindMutation(rows + [row], key).None? ==> FindMutation(rows, key).None?
  {
    var i := MutationIndex(rows, key);
    assert i < |rows| ==> (rows + [row])[i] == rows[i];
  }

  // A rotation whose row has changed never matches again: no envelope comes back.
  lemma MismatchSurvivesAppend(rows: seq<Version>, row: Version, taken: Version)
    requires FreshRow(rows, row) && Located(rows, taken)
    ensures StillMatches(rows + [row], taken) ==> StillMatches(rows, taken)
  {
    var k :| 0 <= k < |rows| && rows[k].sequence == taken.sequence && RecordOf(rows[k]) == RecordOf(taken);
    if StillMatches(rows + [row], taken) {
      var i :| 0 <= i < |rows + [row]| && (rows + [row])[i].sequence == taken.sequence && (rows + [row])[i].payload == taken.payload;
      assert rows[k].sequence < row.sequence;
      assert rows[i].sequence == taken.sequence;
    }
  }

  lemma MismatchSurvivesUpdate(rows: seq<Version>, row: Version, envelope: Envelope, taken: Version)
    requires !HasNonce(taken, envelope.nonce)
    ensures StillMatches(ReplacePayload(rows, row, envelope), taken) ==> StillMatches(rows, taken)
  {
    var updated := ReplacePayload(rows, row, envelope);
    if StillMatches(updated, taken) {
      var i :| 0 <= i < |updated| && updated[i].sequence == taken.sequence && updated[i].payload == taken.payload;
      assert updated[i] == rows[i];
    }
  }

  // ----- every step but a deletion keeps the state safe -----

  lemma InsertKeepsSafe(s: State, id: nat, sequence: nat, revision: string, createdAt: int)
    requires Tracked(s) && Safe(s) && Enabled(s, Insert(id, sequence, revision, createdAt))
    ensures Safe(InsertStep(s, id, sequence, revision, createdAt))
  {
    var after := InsertStep(s, id, sequence, revision, createdAt);
    var row := NewRow(s.calls[id], sequence, revision, createdAt);
    assert CallSafe(s, id);
    if Appends(s.rows, row, RevisionOf(s.calls[id].phase.current)) {
      InsertedRowIsOpen(s, id, row, sequence, revision, createdAt);
      forall other | other in after.calls ensures CallSafe(after, other) {
        CallStaysSafe(s, other, row, after);
      }
      forall job | job in after.jobs ensures JobSafe(after, job) {
        JobStaysSafe(s, job, row, after);
      }
    } else {
      EndedCallKeepsSafe(s, id, after.calls[id].phase);
    }
  }

  lemma EndedCallKeepsSafe(s: State, id: nat, phase: Phase)
    requires Safe(s) && id in s.calls && phase.FindConcurrent?
    ensures Safe(SetPhase(s, id, phase))
  {
    var after := SetPhase(s, id, phase);
    forall other | other in after.calls ensures CallSafe(after, other) {
      assert CallSafe(s, other);
    }
    forall job | job in after.jobs ensures JobSafe(after, job) {
      assert JobSafe(s, job);
    }
  }

  lemma InsertedRowIsOpen(s: State, id: nat, row: Version, sequence: nat, revision: string, createdAt: int)
    requires AllOpen(s.keys, s.rows) && id in s.calls && s.calls[id].phase.InsertRow? && CallSafe(s, id)
    requires row == NewRow(s.calls[id], sequence, revision, createdAt) && Appends(s.rows, row, RevisionOf(s.calls[id].phase.current))
    ensures AllOpen(s.keys, s.rows + [row])
  {
    assert Opens(s.keys, row);
    forall i | 0 <= i < |s.rows + [row]| ensures Opens(s.keys, (s.rows + [row])[i]) {
      assert i < |s.rows| ==> Opens(s.keys, s.rows[i]);
    }
  }

  lemma CallStaysSafe(s: State, id: nat, row: Version, after: State)
    requires Inv(s) && id in s.calls && CallSafe(s, id) && FreshRow(s.rows, row)
    requires after.rows == s.rows + [row] && after.keys == s.keys && id in after.calls
    requires after.calls[id] == s.calls[id] || after.calls[id].phase.Finished?
    ensures CallSafe(after, id)
  {
    if s.calls[id].phase.InsertRow? {
      assert PhaseOk(Serial(s.accepted), s.calls[id].owner, s.calls[id].mutation, s.calls[id].phase);
      RefusedStaysRefused(s.rows, s.calls[id], row);
    }
  }

  lemma JobStaysSafe(s: State, id: nat, row: Version, after: State)
    requires JobsLocated(s) && id in s.jobs && JobSafe(s, id) && FreshRow(s.rows, row)
    requires after.rows == s.rows + [row] && after.keys == s.keys && after.jobs == s.jobs
    ensures JobSafe(after, id)
  {
    if s.jobs[id].phase.UpdateRow? {
      MismatchSurvivesAppend(s.rows, row, s.jobs[id].phase.row);
    }
  }

  lemma UpdateKeepsSafe(s: State, id: nat)
    requires Tracked(s) && Safe(s) && Enabled(s, UpdateForRotation(id))
    ensures Safe(Next(s, UpdateForRotation(id)))
  {
    var after := Next(s, UpdateForRotation(id));
    assert JobSafe(s, id);
    UpdatedRowsOpen(s, id);
    forall other | other in after.calls ensures CallSafe(after, other) {
      assert CallSafe(s, other);
      UpdateKeepsCallSafe(s, id, after, other);
    }
    forall job | job in after.jobs ensures JobSafe(after, job) {
      assert JobSafe(s, job);
      UpdateKeepsJobSafe(s, id, after, job);
    }
  }

  lemma UpdateKeepsCallSafe(s: State, id: nat, after: State, other: nat)
    requires id in s.jobs && s.jobs[id].phase.UpdateRow? && other in s.calls && CallSafe(s, other)
    requires after.rows == ReplacePayload(s.rows, s.jobs[id].phase.row, s.jobs[id].phase.envelope)
    requires after.keys == s.keys && after.calls == s.calls
    ensures CallSafe(after, other)
  {
    if s.calls[other].phase.InsertRow? {
      UpdateKeepsAppends(s.rows, s.jobs[id].phase.row, s.jobs[id].phase.envelope, s.calls[other]);
    }
  }

  lemma UpdateKeepsJobSafe(s: State, id: nat, after: State, job: nat)
    requires NoncesOk(s) && id in s.jobs && s.jobs[id].phase.UpdateRow? && job in s.jobs && job != id && JobSafe(s, job)
    requires after.rows == ReplacePayload(s.rows, s.jobs[id].phase.row, s.jobs[id].phase.envelope)
    requires after.keys == s.keys && after.jobs == s.jobs - {id}
    ensures JobSafe(after, job)
  {
    assert Pending(s, ByJob(id)) == Some(s.jobs[id].phase.envelope);
    assert !Took(s.jobs[job], s.jobs[id].phase.envelope.nonce);
    if s.jobs[job].phase.UpdateRow? {
      MismatchSurvivesUpdate(s.rows, s.jobs[id].phase.row, s.jobs[id].phase.envelope, s.jobs[job].phase.row);
    }
  }

  lemma UpdatedRowsOpen(s: State, id: nat)
    requires Tracked(s) && AllOpen(s.keys, s.rows) && id in s.jobs && s.jobs[id].phase.UpdateRow? && JobSafe(s, id)
    ensures AllOpen(s.keys, ReplacePayload(s.rows, s.jobs[id].phase.row, s.jobs[id].phase.envelope))
  {
    var row, envelope := s.jobs[id].phase.row, s.jobs[id].phase.envelope;
    var updated := ReplacePayload(s.rows, row, envelope);
    assert Located(s.rows, row);
    var k :| 0 <= k < |s.rows| && s.rows[k].sequence == row.sequence && RecordOf(s.rows[k]) == RecordOf(row);
    forall i | 0 <= i < |updated| ensures Opens(s.keys, updated[i]) {
      assert Opens(s.keys, s.rows[i]);
      if updated[i] != s.rows[i] {
        assert s.rows[i].sequence == row.sequence && i == k;
        assert StillMatches(s.rows, row);
      }
    }
  }

  lemma UpdateKeepsAppends(rows: seq<Version>, row: Version, envelope: Envelope, call: Call)
    requires call.phase.InsertRow?
    ensures StillAppends(ReplacePayload(rows, row, envelope), call) ==> StillAppends(rows, call)
  {
    var updated, key := ReplacePayload(rows, row, envelope), Target(call.owner, call.mutation);
    var mine := KeyOf(call.owner, call.mutation);
    var a, b := NewestIndex(rows, key), NewestIndex(updated, key);
    assert a >= 0 ==> RecordOf(updated[a]) == RecordOf(rows[a]);
    assert b >= 0 ==> RecordOf(updated[b]) == RecordOf(rows[b]);
    var i := MutationIndex(rows, mine);
    assert i < |rows| ==> MutationOf(updated[i]) == MutationOf(rows[i]);
  }

  lemma CreateKeepsSafe(s: State, slot: Slot, key: nat)
    requires Safe(s) && Enabled(s, CreateKey(slot, key))
    ensures Safe(Next(s, CreateKey(slot, key)))
  {
    var after := Next(s, CreateKey(slot, key));
    forall i | 0 <= i < |s.rows| ensures Opens(after.keys, s.rows[i]) {
      assert Opens(s.keys, s.rows[i]);
    }
    forall id | id in s.calls ensures CallSafe(after, id) {
      assert CallSafe(s, id);
    }
    forall id | id in s.jobs ensures JobSafe(after, id) {
      assert JobSafe(s, id);
    }
  }

  // The other steps change neither rows nor keys, and what they seal opens.
  lemma SealKeepsSafe(s: State, e: Event)
    requires Safe(s) && Enabled(s, e)
    requires !e.Insert? && !e.UpdateForRotation? && !e.CreateKey? && !e.DeleteRetiredKeys?
    ensures Safe(Next(s, e))
  {
    var after := Next(s, e);
    assert after.rows == s.rows && after.keys == s.keys;
    forall id | id in after.calls ensures CallSafe(after, id) {
      SealedCallIsSafe(s, e, id);
    }
    forall id | id in after.jobs ensures JobSafe(after, id) {
      SealedJobIsSafe(s, e, id);
    }
  }

  lemma SealedCallIsSafe(s: State, e: Event, id: nat)
    requires Enabled(s, e) && (id in s.calls ==> CallSafe(s, id)) && id in Next(s, e).calls
    requires !e.Insert? && !e.UpdateForRotation? && !e.CreateKey? && !e.DeleteRetiredKeys?
    ensures CallSafe(Next(s, e), id)
  {
    if e.SealPayload? {
      SealedOpens(s, e, id);
    } else if e.Advance? {
      AdvancedIsSafe(s, e.id, id);
    }
  }

  // What a call seals opens under the key it was sealed with.
  lemma SealedOpens(s: State, e: Event, id: nat)
    requires e.SealPayload? && Enabled(s, e) && id in s.calls && CallSafe(s, id)
    ensures CallSafe(Next(s, e), id)
  {
  }

  // A call that has just read holds nothing sealed.
  lemma AdvancedIsSafe(s: State, moved: nat, id: nat)
    requires Enabled(s, Advance(moved)) && id in s.calls && CallSafe(s, id)
    ensures CallSafe(Next(s, Advance(moved)), id)
  {
    if id == moved {
      var after := Next(s, Advance(moved)).calls[id].phase;
      assert after.InsertRow? ==> after.stored.None?;
    }
  }

  lemma SealedJobIsSafe(s: State, e: Event, id: nat)
    requires Enabled(s, e) && (id in s.jobs ==> JobSafe(s, id)) && id in Next(s, e).jobs
    requires !e.Insert? && !e.UpdateForRotation? && !e.CreateKey? && !e.DeleteRetiredKeys?
    ensures JobSafe(Next(s, e), id)
  {
  }

  lemma StepKeepsSafe(s: State, e: Event)
    requires Tracked(s) && Safe(s) && !e.DeleteRetiredKeys?
    ensures Safe(Step(s, e))
  {
    if Enabled(s, e) {
      match e
      case Insert(id, sequence, revision, createdAt) => InsertKeepsSafe(s, id, sequence, revision, createdAt);
      case UpdateForRotation(id) => UpdateKeepsSafe(s, id);
      case CreateKey(slot, key) => CreateKeepsSafe(s, slot, key);
      case _ => SealKeepsSafe(s, e);
    }
  }

  // No keys are deleted in the meantime.
  predicate NoDeletion(events: seq<Event>) { forall i | 0 <= i < |events| :: !events[i].DeleteRetiredKeys? }

  lemma {:induction false} RunKeepsSafe(s: State, events: seq<Event>)
    requires Tracked(s) && Safe(s) && NoDeletion(events)
    ensures Safe(Run(s, events))
  {
    if events != [] {
      var n := |events| - 1;
      RunKeepsSafe(s, events[..n]);
      RunKeepsTracked(s, events[..n]);
      StepKeepsSafe(Run(s, events[..n]), events[n]);
    }
  }

  // However the run continues without another deletion, every stored envelope opens.
  ghost predicate StaysOpen(s: State) {
    forall more :: NoDeletion(more) ==> AllOpen(Run(s, more).keys, Run(s, more).rows)
  }

  // ----- an unsafe state loses a payload with its next step -----

  // There is always another identifier.
  lemma AnotherName(names: set<string>) returns (name: string)
    ensures forall n :: n in names ==> |n| < |name|
  {
    if names == {} {
      name := "";
    } else {
      var n :| n in names;
      var longer := AnotherName(names - {n});
      name := longer + n + "x";
    }
  }

  ghost function LastSequence(rows: seq<Version>): nat { if rows == [] then 0 else rows[|rows| - 1].sequence }

  // A sequence and a revision with which the call's insert is possible.
  lemma InsertIsPossible(s: State, id: nat) returns (sequence: nat, revision: string)
    requires WellFormed(s.rows) && id in s.calls && s.calls[id].phase.InsertRow?
    ensures Enabled(s, Insert(id, sequence, revision, 0))
  {
    var stored := set i | 0 <= i < |s.rows| :: s.rows[i].revision;
    var bases := set r | r in s.requested && r.mutation.baseRevision.Some? :: r.mutation.baseRevision.value;
    revision := AnotherName(stored + bases);
    sequence := LastSequence(s.rows) + 1;
    forall i | 0 <= i < |s.rows| ensures s.rows[i].sequence < sequence && s.rows[i].revision != revision {
      assert s.rows[i].revision in stored;
    }
    forall r | r in s.requested ensures r.mutation.baseRevision != Some(revision) {
      assert r.mutation.baseRevision.Some? ==> r.mutation.baseRevision.value in bases;
    }
  }

  lemma RunOfOne(s: State, e: Event)
    ensures Run(s, [e]) == Step(s, e)
  {
    assert [e][..0] == [];
  }

  lemma UnsafeCallLoses(s: State, id: nat)
    requires WellFormed(s.rows) && !CallSafe(s, id)
    ensures !StaysOpen(s)
  {
    var sequence, revision := InsertIsPossible(s, id);
    var e, row := Insert(id, sequence, revision, 0), NewRow(s.calls[id], sequence, revision, 0);
    RunOfOne(s, e);
    var after := Run(s, [e]);
    assert after.rows == s.rows + [row] && after.keys == s.keys;
    assert !Opens(after.keys, after.rows[|s.rows|]);
  }

  lemma UnsafeJobLoses(s: State, id: nat)
    requires WellFormed(s.rows) && JobsLocated(s) && !JobSafe(s, id)
    ensures !StaysOpen(s)
  {
    var row, envelope := s.jobs[id].phase.row, s.jobs[id].phase.envelope;
    var i :| 0 <= i < |s.rows| && s.rows[i].sequence == row.sequence && s.rows[i].payload == row.payload;
    assert RecordOf(s.rows[i]) == RecordOf(row) by {
      assert Located(s.rows, row);
    }
    RunOfOne(s, UpdateForRotation(id));
    var after := Run(s, [UpdateForRotation(id)]);
    assert after.rows == ReplacePayload(s.rows, row, envelope) && after.keys == s.keys;
    assert !Opens(after.keys, after.rows[i]);
  }

  lemma StaysOpenIffSafe(s: State)
    requires Tracked(s)
    ensures StaysOpen(s) <==> Safe(s)
  {
    if Safe(s) {
      forall more | NoDeletion(more) ensures AllOpen(Run(s, more).keys, Run(s, more).rows) {
        RunKeepsSafe(s, more);
      }
    } else if !AllOpen(s.keys, s.rows) {
      assert NoDeletion([]) && Run(s, []) == s;
    } else if id :| id in s.calls && !CallSafe(s, id) {
      UnsafeCallLoses(s, id);
    } else if id :| id in s.jobs && !JobSafe(s, id) {
      UnsafeJobLoses(s, id);
    }
  }

  // ----- the deletion -----

  // The call would still store an envelope, and it is of another version and opens.
  ghost predicate CallHarmless(s: State, id: nat, version: nat) {
    id in s.calls && Pending(s, ByCall(id)).Some? && StillAppends(s.rows, s.calls[id]) ==>
      && Pending(s, ByCall(id)).value.keyVersion != version
      && EnvelopeOpens(s.keys, Target(s.calls[id].owner, s.calls[id].mutation), Pending(s, ByCall(id)).value)
  }

  ghost predicate JobHarmless(s: State, id: nat, version: nat) {
    id in s.jobs && s.jobs[id].phase.UpdateRow? && StillMatches(s.rows, s.jobs[id].phase.row) ==>
      && s.jobs[id].phase.envelope.keyVersion != version
      && EnvelopeOpens(s.keys, RecordOf(s.jobs[id].phase.row), s.jobs[id].phase.envelope)
  }

  // Every stored envelope opens and none has the version; and the same of every envelope that
  // was sealed and whose statement would still take effect.
  ghost predicate Harmless(s: State, version: nat) {
    && AllOpen(s.keys, s.rows) && !Uses(s.rows, version)
    && (forall id :: id in s.calls ==> CallHarmless(s, id, version))
    && (forall id :: id in s.jobs ==> JobHarmless(s, id, version))
  }

  lemma CallAfterDeletion(s: State, after: State, id: nat, version: nat)
    requires after.rows == s.rows && after.calls == s.calls && after.keys == WithoutVersion(s.keys, version)
    ensures CallSafe(after, id) <==> CallHarmless(s, id, version)
  {
    if Pending(s, ByCall(id)).Some? {
      OpensWithoutVersion(s.keys, version, Target(s.calls[id].owner, s.calls[id].mutation), Pending(s, ByCall(id)).value);
    }
  }

  lemma JobAfterDeletion(s: State, after: State, job: nat, id: nat, version: nat)
    requires id in s.jobs && s.jobs[id].phase.DeleteKeys?
    requires after.rows == s.rows && after.jobs == s.jobs - {id} && after.keys == WithoutVersion(s.keys, version)
    ensures JobSafe(after, job) <==> JobHarmless(s, job, version)
  {
    if job in s.jobs && s.jobs[job].phase.UpdateRow? {
      OpensWithoutVersion(s.keys, version, RecordOf(s.jobs[job].phase.row), s.jobs[job].phase.envelope);
    }
  }

  lemma SafeAfterDeletion(s: State, id: nat)
    requires id in s.jobs && s.jobs[id].phase.DeleteKeys?
    ensures Safe(Next(s, DeleteRetiredKeys(id))) <==> Harmless(s, s.jobs[id].phase.version)
  {
    var after, version := Next(s, DeleteRetiredKeys(id)), s.jobs[id].phase.version;
    DeletionIsSafeIff(s.keys, s.rows, version);
    forall call ensures CallSafe(after, call) <==> CallHarmless(s, call, version) {
      CallAfterDeletion(s, after, call, version);
    }
    forall job ensures JobSafe(after, job) <==> JobHarmless(s, job, version) {
      JobAfterDeletion(s, after, job, id, version);
    }
  }

  lemma DeletionIsSafeWhen(s: State, id: nat)
    requires Tracked(s) && id in s.jobs && s.jobs[id].phase.DeleteKeys?
    ensures StaysOpen(Step(s, DeleteRetiredKeys(id))) <==> Harmless(s, s.jobs[id].phase.version)
  {
    var after := Step(s, DeleteRetiredKeys(id));
    assert after == Next(s, DeleteRetiredKeys(id));
    assert Tracked(after) by {
      StepKeepsTracked(s, DeleteRetiredKeys(id));
    }
    StaysOpenIffSafe(after);
    SafeAfterDeletion(s, id);
  }

  // After any run, the deletion loses nothing, however the run continues without another
  // deletion, exactly when it is harmless: no stored envelope has the version, and no call or
  // rotation holds an envelope of it that its insert or update would still store. A writer that
  // has not sealed yet does no harm: it finds no key and fails, or creates a new one.
  lemma {:induction false} RetirementIsSafeIff(events: seq<Event>, id: nat)
    requires id in Run(INITIAL, events).jobs && Run(INITIAL, events).jobs[id].phase.DeleteKeys?
    ensures var s := Run(INITIAL, events);
      StaysOpen(Step(s, DeleteRetiredKeys(id))) <==> Harmless(s, s.jobs[id].phase.version)
  {
    InitialTracked();
    RunKeepsTracked(INITIAL, events);
    DeletionIsSafeWhen(Run(INITIAL, events), id);
  }

  // ----- runs of many retirements -----

  // A deletion that takes effect is harmless at its moment.
  ghost predicate HarmlessNow(s: State, e: Event) {
    e.DeleteRetiredKeys? && Enabled(s, e) ==> Harmless(s, s.jobs[e.id].phase.version)
  }

  ghost predicate HarmlessRun(s: State, events: seq<Event>) {
    events == [] || (
      var n := |events| - 1;
      HarmlessRun(s, events[..n]) && HarmlessNow(Run(s, events[..n]), events[n]))
  }

  lemma StepStaysSafe(s: State, e: Event)
    requires Tracked(s) && Safe(s) && HarmlessNow(s, e)
    ensures Safe(Step(s, e))
  {
    if !e.DeleteRetiredKeys? {
      StepKeepsSafe(s, e);
    } else if Enabled(s, e) {
      SafeAfterDeletion(s, e.id);
    }
  }

  lemma {:induction false} HarmlessRunStaysSafe(s: State, events: seq<Event>)
    requires Tracked(s) && Safe(s) && HarmlessRun(s, events)
    ensures Tracked(Run(s, events)) && Safe(Run(s, events))
  {
    RunKeepsTracked(s, events);
    if events != [] {
      var n := |events| - 1;
      HarmlessRunStaysSafe(s, events[..n]);
      StepStaysSafe(Run(s, events[..n]), events[n]);
    }
  }

  // Nothing is lost at any moment of the run, nor can it be before another deletion.
  ghost predicate NeverLoses(events: seq<Event>) {
    forall n :: 0 <= n <= |events| ==> StaysOpen(Run(INITIAL, events[..n]))
  }

  lemma {:induction false} HarmfulRunLoses(events: seq<Event>) returns (n: nat)
    requires !HarmlessRun(INITIAL, events)
    ensures n <= |events| && !StaysOpen(Run(INITIAL, events[..n]))
  {
    var m := |events| - 1;
    if HarmlessRun(INITIAL, events[..m]) {
      RetirementIsSafeIff(events[..m], events[m].id);
      n := |events|;
      assert events[..n] == events;
    } else {
      n := HarmfulRunLoses(events[..m]);
      assert events[..m][..n] == events[..n];
    }
  }

  lemma {:induction false} HarmlessPrefix(events: seq<Event>, n: nat)
    requires HarmlessRun(INITIAL, events) && n <= |events|
    ensures HarmlessRun(INITIAL, events[..n])
  {
    if n == |events| {
      assert events[..n] == events;
    } else {
      HarmlessPrefix(events[..|events| - 1], n);
      assert events[..|events| - 1][..n] == events[..n];
    }
  }

  // With any number of retirements, no envelope is or can become unreadable at any moment of a
  // run exactly when every deletion is harmless at its own moment.
  lemma {:induction false} RetirementsAreSafeIff(events: seq<Event>)
    ensures HarmlessRun(INITIAL, events) <==> NeverLoses(events)
  {
    InitialTracked();
    if HarmlessRun(INITIAL, events) {
      forall n | 0 <= n <= |events| ensures StaysOpen(Run(INITIAL, events[..n])) {
        HarmlessPrefix(events, n);
        HarmlessRunStaysSafe(INITIAL, events[..n]);
        StaysOpenIffSafe(Run(INITIAL, events[..n]));
      }
    } else {
      var n := HarmfulRunLoses(events);
    }
  }

  // ----- the operator's discipline is one way to keep deletions harmless -----

  lemma DisciplinedCallHarmless(s: State, id: nat, version: nat)
    requires OpenInv(s) && id in s.calls && version in s.paused
    ensures CallHarmless(s, id, version)
  {
    assert CallOpens(s, s.calls[id]);
    assert !s.calls[id].phase.Finished? ==> !Writes(s.calls[id], version);
  }

  lemma DisciplinedJobHarmless(s: State, id: nat, version: nat)
    requires OpenInv(s) && id in s.jobs && version in s.paused
    ensures JobHarmless(s, id, version)
  {
    assert JobOpens(s, s.jobs[id]) && !Rotates(s.jobs[id], version);
  }

  lemma DisciplinedIsHarmless(s: State, e: Event)
    requires OpenInv(s)
    ensures HarmlessNow(s, e)
  {
    if e.DeleteRetiredKeys? && Enabled(s, e) {
      assert JobOpens(s, s.jobs[e.id]);
      forall id | id in s.calls ensures CallHarmless(s, id, s.jobs[e.id].phase.version) {
        DisciplinedCallHarmless(s, id, s.jobs[e.id].phase.version);
      }
      forall id | id in s.jobs ensures JobHarmless(s, id, s.jobs[e.id].phase.version) {
        DisciplinedJobHarmless(s, id, s.jobs[e.id].phase.version);
      }
    }
  }

  // In a run under the operator's discipline every deletion is harmless at its moment.
  lemma {:induction false} DisciplinedRunIsHarmless(events: seq<Event>)
    requires DisciplinedRun(INITIAL, events)
    ensures HarmlessRun(INITIAL, events)
  {
    if events != [] {
      var n := |events| - 1;
      DisciplinedRunIsHarmless(events[..n]);
      RunKeepsOpen(INITIAL, events[..n]);
      DisciplinedIsHarmless(Run(INITIAL, events[..n]), events[n]);
    }
  }
}
