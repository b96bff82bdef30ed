// Concurrent pushes and key rotation over one database, one SQL statement at a time.
// Between any two statements of a call every other call, rotation and retirement may run.
module PushProtocol {
  import opened Base
  import opened Json
  import opened Merge
  import opened Envelopes
  import opened SyncLog

  datatype Slot = Slot(ownerSub: string, keyVersion: nat)

  // The master keys a process holds; new envelopes use the current version.
  datatype Keyring = Keyring(currentVersion: nat, versions: set<nat>)

  type UserKeys = map<Slot, nat>

  datatype Status = Applied | Merged | Replayed

  datatype PushResult = Answered(status: Status, row: Version) | SyncConflictError | KeyUnavailableError

  // Where a push call stands; each phase is the statement it executes next. `seen` is
  // history: the number of rows when the call last read the current version.
  datatype Phase =
    | FindReplay
    | ReadAncestor
    | OpenAncestor(row: Version)
    | ReadCurrent(ancestor: Option<JsonObject>, attempt: nat)
    | OpenCurrent(ancestor: Option<JsonObject>, attempt: nat, seen: nat, current: Option<Version>)
    | SealLogical(ancestor: Option<JsonObject>, attempt: nat, seen: nat, current: Option<Version>, logical: Option<JsonObject>)
    | InsertRow(ancestor: Option<JsonObject>, attempt: nat, seen: nat, current: Option<Version>, logical: Option<JsonObject>, stored: Option<Payload>)
    | FindConcurrent(ancestor: Option<JsonObject>, attempt: nat)
    | Finished(result: PushResult)

  // `started` is history: the number of rows when the call began.
  datatype Call = Call(owner: string, mutation: Mutation, keyring: Keyring, maxAttempts: nat, started: nat, phase: Phase)

  // One row under re-encryption, or a retirement between its check and its deletion.
  datatype JobPhase =
    | OpenOld(row: Version)
    | Reseal(row: Version, plaintext: JsonObject)
    | UpdateRow(row: Version, envelope: Envelope)
    | DeleteKeys(version: nat)

  datatype Job = Job(keyring: Keyring, phase: JobPhase)

  datatype Request = Request(owner: string, mutation: Mutation)

  datatype State = State(
    rows: seq<Version>,
    keys: UserKeys,
    calls: map<nat, Call>,
    jobs: map<nat, Job>,
    paused: set<nat>,            // key versions whose writers the operator has stopped
    requested: set<Request>,     // history: every mutation ever pushed
    accepted: seq<Accepted>,     // history: the mutations behind the rows, in order
    nonces: set<nat>)            // history: every nonce drawn

  datatype Event =
    | BeginPush(id: nat, owner: string, mutation: Mutation, keyring: Keyring, maxConflictRetries: Option<int>)
    | Advance(id: nat)
    | SealPayload(id: nat, nonce: nat)
    | Insert(id: nat, sequence: nat, revision: string, createdAt: int)
    | Crash(id: nat)
    | CreateKey(slot: Slot, key: nat)
    | BeginRotation(id: nat, keyring: Keyring, index: nat)
    | OpenForRotation(id: nat)
    | SealForRotation(id: nat, nonce: nat)
    | UpdateForRotation(id: nat)
    | CheckRetirement(id: nat, keyring: Keyring, version: nat)
    | DeleteRetiredKeys(id: nat)
    | Pause(version: nat)

  const INITIAL := State([], map[], map[], map[], {}, {}, [], {})

  // ----- the codec -----

  predicate IsSealed(v: Version) { v.payload.Some? && v.payload.value.Sealed? }

  // Opens a row's payload; fails when the key version, the user key or the binding is wrong.
  function OpenRow(keys: UserKeys, keyring: Keyring, v: Version): Option<JsonObject>
    requires IsSealed(v)
  {
    var envelope := v.payload.value.envelope;
    var slot := Slot(v.ownerSub, envelope.keyVersion);
    if envelope.keyVersion in keyring.versions && slot in keys
    then Decrypt(keys[slot], v.ownerSub, v.collection, v.recordId, envelope)
    else None
  }

  // `logicalPayload`: None inside a success is a deletion.
  function ReadLogical(keys: UserKeys, keyring: Keyring, v: Version): Result<Option<JsonObject>, ()> {
    if v.deleted || v.payload.None? then Success(None)
    else if !IsSealed(v) then Failure(())
    else match OpenRow(keys, keyring, v)
      case None => Failure(())
      case Some(content) => Success(Some(content))
  }

  // ----- one push call -----

  function MaxAttempts(maxConflictRetries: Option<int>): (n: nat)
    ensures n >= 1
    ensures maxConflictRetries.None? ==> n == 3
    ensures maxConflictRetries.Some? && maxConflictRetries.value >= 1 ==> n == maxConflictRetries.value
  {
    var retries := if maxConflictRetries.Some? then maxConflictRetries.value else 3;
    if retries < 1 then 1 else retries
  }

  // The read-only statements and what the call does with what it read.
  function AdvancePhase(rows: seq<Version>, keys: UserKeys, call: Call): Phase {
    var m, target := call.mutation, Target(call.owner, call.mutation);
    match call.phase
    case FindReplay => (
      match FindMutation(rows, KeyOf(call.owner, m))
      case Some(row) => Finished(Answered(Replayed, row))
      case None => ReadAncestor)
    case ReadAncestor => (
      if m.baseRevision.None? then ReadCurrent(None, 0) else
        match GetVersion(rows, target, m.baseRevision.value)
        case None => ReadCurrent(None, 0)
        case Some(row) => OpenAncestor(row))
    case OpenAncestor(row) => (
      match ReadLogical(keys, call.keyring, row)
      case Failure(_) => Finished(KeyUnavailableError)
      case Success(ancestor) => ReadCurrent(ancestor, 0))
    case ReadCurrent(ancestor, attempt) => OpenCurrent(ancestor, attempt, |rows|, GetCurrent(rows, target))
    case OpenCurrent(ancestor, attempt, seen, current) => (
      match (if current.None? then Success(None) else ReadLogical(keys, call.keyring, current.value))
      case Failure(_) => Finished(KeyUnavailableError)
      case Success(server) =>
        var logical := if Conflicted(current, m) then ThreeWayMerge(ancestor, server, ClientPayload(m)) else ClientPayload(m);
        if logical.None? then InsertRow(ancestor, attempt, seen, current, None, None)
        else SealLogical(ancestor, attempt, seen, current, logical))
    case FindConcurrent(ancestor, attempt) => (
      match FindMutation(rows, KeyOf(call.owner, m))
      case Some(row) => Finished(Answered(Replayed, row))
      case None => if attempt + 1 < call.maxAttempts then ReadCurrent(ancestor, attempt + 1) else Finished(SyncConflictError))
    case _ => call.phase
  }

  predicate Reads(phase: Phase) { !phase.SealLogical? && !phase.InsertRow? && !phase.Finished? }

  function NewRow(call: Call, sequence: nat, revision: string, createdAt: int): Version
    requires call.phase.InsertRow?
  {
    var m := call.mutation;
    Version(sequence, call.owner, m.collection, m.recordId, m.deviceId, m.mutationId, revision,
      RevisionOf(call.phase.current), call.phase.stored, call.phase.logical.None?, createdAt)
  }

  // ----- the steps -----

  ghost predicate Enabled(s: State, e: Event) {
    match e
    case BeginPush(id, _, _, keyring, _) => id !in s.calls && keyring.currentVersion in keyring.versions
    case Advance(id) => id in s.calls && Reads(s.calls[id].phase)
    case SealPayload(id, nonce) =>
      nonce !in s.nonces && id in s.calls && s.calls[id].phase.SealLogical? && s.calls[id].phase.logical.Some?
      && Slot(s.calls[id].owner, s.calls[id].keyring.currentVersion) in s.keys
    case Insert(id, sequence, revision, createdAt) =>
      // The sequence is the next of its counter and the revision a fresh random identifier:
      // in no row and named by no request so far.
      && sequence >= 1 && id in s.calls && s.calls[id].phase.InsertRow?
      && FreshRow(s.rows, NewRow(s.calls[id], sequence, revision, createdAt))
      && forall r :: r in s.requested ==> r.mutation.baseRevision != Some(revision)
    case Crash(id) => id in s.calls || id in s.jobs
    case CreateKey(_, _) => true
    case BeginRotation(id, keyring, index) =>
      id !in s.jobs && keyring.currentVersion in keyring.versions && index < |s.rows| && IsSealed(s.rows[index])
      && s.rows[index].payload.value.envelope.keyVersion != keyring.currentVersion
    case OpenForRotation(id) => id in s.jobs && s.jobs[id].phase.OpenOld?
    case SealForRotation(id, nonce) =>
      nonce !in s.nonces && id in s.jobs && s.jobs[id].phase.Reseal?
      && Slot(s.jobs[id].phase.row.ownerSub, s.jobs[id].keyring.currentVersion) in s.keys
    case UpdateForRotation(id) => id in s.jobs && s.jobs[id].phase.UpdateRow?
    case CheckRetirement(id, keyring, version) => id !in s.jobs && version != keyring.currentVersion && !Uses(s.rows, version)
    case DeleteRetiredKeys(id) => id in s.jobs && s.jobs[id].phase.DeleteKeys?
    case Pause(_) => true
  }

  predicate UsesVersion(v: Version, version: nat) { IsSealed(v) && v.payload.value.envelope.keyVersion == version }

  // Some stored envelope still has this key version.
  ghost predicate Uses(rows: seq<Version>, version: nat) {
    exists i :: 0 <= i < |rows| && UsesVersion(rows[i], version)
  }

  function WithoutVersion(keys: UserKeys, version: nat): UserKeys {
    map slot | slot in keys && slot.keyVersion != version :: keys[slot]
  }

  // The update of a row that still has the payload that was read.
  function ReplacePayload(rows: seq<Version>, row: Version, envelope: Envelope): (updated: seq<Version>)
    ensures |updated| == |rows|
  {
    seq(|rows|, i requires 0 <= i < |rows| =>
      if rows[i].sequence == row.sequence && rows[i].payload == row.payload
      then rows[i].(payload := Some(Sealed(envelope))) else rows[i])
  }

  function SetPhase(s: State, id: nat, phase: Phase): State
    requires id in s.calls
  {
    s.(calls := s.calls[id := s.calls[id].(phase := phase)])
  }

  function SetJob(s: State, id: nat, phase: JobPhase): State
    requires id in s.jobs
  {
    s.(jobs := s.jobs[id := s.jobs[id].(phase := phase)])
  }

  function InsertStep(s: State, id: nat, sequence: nat, revision: string, createdAt: int): State
    requires id in s.calls && s.calls[id].phase.InsertRow?
  {
    var call := s.calls[id];
    var phase, row := call.phase, NewRow(s.calls[id], sequence, revision, createdAt);
    if Appends(s.rows, row, RevisionOf(phase.current)) then
      var status := if Conflicted(phase.current, call.mutation) then Merged else Applied;
      SetPhase(s, id, Finished(Answered(status, row)))
        .(rows := s.rows + [row], accepted := s.accepted + [Accepted(call.owner, call.mutation, sequence, revision, createdAt)])
    else SetPhase(s, id, FindConcurrent(phase.ancestor, phase.attempt))
  }

  ghost function Next(s: State, e: Event): State
    requires Enabled(s, e)
  {
    match e
    case BeginPush(id, owner, m, keyring, retries) =>
      s.(calls := s.calls[id := Call(owner, m, keyring, MaxAttempts(retries), |s.rows|, FindReplay)], requested := s.requested + {Request(owner, m)})
    case Advance(id) => SetPhase(s, id, AdvancePhase(s.rows, s.keys, s.calls[id]))
    case SealPayload(id, nonce) =>
      var call := s.calls[id];
      var phase, version := call.phase, call.keyring.currentVersion;
      var aad := Aad(call.owner, call.mutation.collection, call.mutation.recordId, version);
      var envelope := Encrypt(s.keys[Slot(call.owner, version)], aad, nonce, phase.logical.value);
      SetPhase(s, id, InsertRow(phase.ancestor, phase.attempt, phase.seen, phase.current, phase.logical, Some(Sealed(envelope))))
        .(nonces := s.nonces + {nonce})
    case Insert(id, sequence, revision, createdAt) => InsertStep(s, id, sequence, revision, createdAt)
    case Crash(id) => s.(calls := s.calls - {id}, jobs := s.jobs - {id})
    case CreateKey(slot, key) => s.(keys := if slot in s.keys then s.keys else s.keys[slot := key])
    case BeginRotation(id, keyring, index) => s.(jobs := s.jobs[id := Job(keyring, OpenOld(s.rows[index]))])
    case OpenForRotation(id) => (
      var job := s.jobs[id];
      if !IsSealed(job.phase.row) then s.(jobs := s.jobs - {id}) else
        match OpenRow(s.keys, job.keyring, job.phase.row)
        case None => s.(jobs := s.jobs - {id})
        case Some(plaintext) => SetJob(s, id, Reseal(job.phase.row, plaintext)))
    case SealForRotation(id, nonce) =>
      var job := s.jobs[id];
      var row, version := job.phase.row, job.keyring.currentVersion;
      var aad := Aad(row.ownerSub, row.collection, row.recordId, version);
      SetJob(s, id, UpdateRow(row, Encrypt(s.keys[Slot(row.ownerSub, version)], aad, nonce, job.phase.plaintext)))
        .(nonces := s.nonces + {nonce})
    case UpdateForRotation(id) =>
      var phase := s.jobs[id].phase;
      s.(rows := ReplacePayload(s.rows, phase.row, phase.envelope), jobs := s.jobs - {id})
    case CheckRetirement(id, keyring, version) => s.(jobs := s.jobs[id := Job(keyring, DeleteKeys(version))])
    case DeleteRetiredKeys(id) => s.(keys := WithoutVersion(s.keys, s.jobs[id].phase.version), jobs := s.jobs - {id})
    case Pause(version) => s.(paused := s.paused + {version})
  }

  // A run of the database; an event that is not possible where it stands changes nothing,
  // so the event sequences cover every interleaving.
  ghost function Step(s: State, e: Event): State { if Enabled(s, e) then Next(s, e) else s }

  ghost function Run(s: State, events: seq<Event>): State {
    if events == [] then s else Step(Run(s, events[..|events| - 1]), events[|events| - 1])
  }
}
