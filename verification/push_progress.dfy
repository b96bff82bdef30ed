// A push gives up only after enough competing versions of its own record.
module PushProgress {
  import opened Base
  import opened Json
  import opened SyncLog
  import opened PushProtocol

  // The number of versions of a record, not made by this mutation, among the rows from
  // position `from` on.
  function CompetingSince(rows: seq<Version>, key: RecordKey, mine: MutationKey, from: nat): nat {
    if |rows| <= from then 0 else
      var last := rows[|rows| - 1];
      CompetingSince(rows[..|rows| - 1], key, mine, from) + if RecordOf(last) == key && MutationOf(last) != mine then 1 else 0
  }

  lemma {:induction false} CountGrows(rows: seq<Version>, key: RecordKey, mine: MutationKey, from: nat, n: nat)
    requires n <= |rows|
    ensures CompetingSince(rows, key, mine, from) >= CompetingSince(rows[..n], key, mine, from)
  {
    if n < |rows| {
      CountGrows(rows[..|rows| - 1], key, mine, from, n);
      assert rows[..|rows| - 1][..n] == rows[..n];
    } else {
      assert rows[..n] == rows;
    }
  }

  lemma FindShrinks(rows: seq<Version>, mine: MutationKey, n: nat)
    requires n <= |rows|
    ensures FindMutation(rows[..n], mine).Some? ==> FindMutation(rows, mine).Some?
  {
    var i := MutationIndex(rows[..n], mine);
    assert i < n ==> MutationOf(rows[i]) == mine;
  }

  // If the newest version of a record is not the one read when there were n rows, one more
  // version of it has been appended since.
  lemma {:induction false} CountNewVersion(rows: seq<Version>, key: RecordKey, mine: MutationKey, from: nat, n: nat)
    requires from <= n <= |rows|
    requires NewestIndex(rows, key) >= n && FindMutation(rows, mine).None?
    ensures CompetingSince(rows, key, mine, from) >= CompetingSince(rows[..n], key, mine, from) + 1
  {
    var m := |rows| - 1;
    if RecordOf(rows[m]) == key {
      CountGrows(rows[..m], key, mine, from, n);
    } else {
      FindShrinks(rows, mine, m);
      CountNewVersion(rows[..m], key, mine, from, n);
    }
    assert rows[..m][..n] == rows[..n];
  }

  ghost predicate SameHeaders(a: seq<Version>, b: seq<Version>) {
    |a| == |b| && forall i :: 0 <= i < |a| ==>
      RecordOf(a[i]) == RecordOf(b[i]) && MutationOf(a[i]) == MutationOf(b[i]) && a[i].revision == b[i].revision
  }

  lemma {:induction false} CountByHeaders(a: seq<Version>, b: seq<Version>, key: RecordKey, mine: MutationKey, from: nat)
    requires SameHeaders(a, b)
    ensures CompetingSince(a, key, mine, from) == CompetingSince(b, key, mine, from)
  {
    if |a| > from {
      CountByHeaders(a[..|a| - 1], b[..|b| - 1], key, mine, from);
    }
  }

  // The call read `current` when there were `seen` rows, after `attempt` competing versions.
  ghost predicate SeenOk(rows: seq<Version>, call: Call, attempt: nat, seen: nat, current: Option<Version>) {
    var key := Target(call.owner, call.mutation);
    && call.started <= seen <= |rows|
    && CompetingSince(rows[..seen], key, KeyOf(call.owner, call.mutation), call.started) >= attempt
    && RevisionOf(current) == RevisionOf(GetCurrent(rows[..seen], key))
  }

  ghost predicate ProgressOk(rows: seq<Version>, call: Call) {
    var key := Target(call.owner, call.mutation);
    call.started <= |rows| && call.maxAttempts >= 1 &&
    match call.phase
    case ReadCurrent(_, attempt) => CompetingSince(rows, key, KeyOf(call.owner, call.mutation), call.started) >= attempt
    case OpenCurrent(_, attempt, seen, current) => SeenOk(rows, call, attempt, seen, current)
    case SealLogical(_, attempt, seen, current, _) => SeenOk(rows, call, attempt, seen, current)
    case InsertRow(_, attempt, seen, current, _, _) => SeenOk(rows, call, attempt, seen, current)
    case FindConcurrent(_, attempt) =>
      var competing := CompetingSince(rows, key, KeyOf(call.owner, call.mutation), call.started);
      competing >= attempt && (FindMutation(rows, KeyOf(call.owner, call.mutation)).Some? || competing >= attempt + 1)
    case Finished(SyncConflictError) => CompetingSince(rows, key, KeyOf(call.owner, call.mutation), call.started) >= call.maxAttempts
    case _ => true
  }

  ghost predicate ProgressInv(s: State) {
    forall id :: id in s.calls ==> ProgressOk(s.rows, s.calls[id])
  }

  lemma FindGrows(rows: seq<Version>, row: Version, key: MutationKey)
    requires FindMutation(rows, key).Some?
    ensures FindMutation(rows + [row], key).Some?
  {
    var i := MutationIndex(rows, key);
    assert (rows + [row])[i] == rows[i];
  }

  lemma ProgressSurvivesAppend(rows: seq<Version>, row: Version, call: Call)
    requires ProgressOk(rows, call)
    ensures ProgressOk(rows + [row], call)
  {
    var more, key := rows + [row], Target(call.owner, call.mutation);
    CountGrows(more, key, KeyOf(call.owner, call.mutation), call.started, |rows|);
    assert more[..|rows|] == rows;
    if call.phase.OpenCurrent? || call.phase.SealLogical? || call.phase.InsertRow? {
      assert more[..call.phase.seen] == rows[..call.phase.seen];
    }
    if call.phase.FindConcurrent? && FindMutation(rows, KeyOf(call.owner, call.mutation)).Some? {
      FindGrows(rows, row, KeyOf(call.owner, call.mutation));
    }
  }

  lemma CurrentByHeaders(a: seq<Version>, b: seq<Version>, key: RecordKey)
    requires SameHeaders(a, b)
    ensures RevisionOf(GetCurrent(a, key)) == RevisionOf(GetCurrent(b, key))
  {
    var i, j := NewestIndex(a, key), NewestIndex(b, key);
    assert i >= 0 ==> RecordOf(b[i]) == key;
    assert j >= 0 ==> RecordOf(a[j]) == key;
  }

  lemma FindByHeaders(a: seq<Version>, b: seq<Version>, key: MutationKey)
    requires SameHeaders(a, b)
    ensures FindMutation(a, key).Some? ==> FindMutation(b, key).Some?
  {
    var i := MutationIndex(a, key);
    assert i < |a| ==> MutationOf(b[i]) == key;
  }

  // Re-encryption does not disturb the count.
  lemma ProgressSurvivesUpdate(a: seq<Version>, b: seq<Version>, call: Call)
    requires ProgressOk(a, call) && SameHeaders(a, b)
    ensures ProgressOk(b, call)
  {
    var key := Target(call.owner, call.mutation);
    CountByHeaders(a, b, key, KeyOf(call.owner, call.mutation), call.started);
    if call.phase.OpenCurrent? || call.phase.SealLogical? || call.phase.InsertRow? {
      var n := call.phase.seen;
      CountByHeaders(a[..n], b[..n], key, KeyOf(call.owner, call.mutation), call.started);
      CurrentByHeaders(a[..n], b[..n], key);
    }
    FindByHeaders(a, b, KeyOf(call.owner, call.mutation));
  }

  // A refused insert means the mutation is already there or a competing version is.
  lemma RefusalHasCause(rows: seq<Version>, call: Call, row: Version)
    requires call.phase.InsertRow? && ProgressOk(rows, call)
    requires RecordOf(row) == Target(call.owner, call.mutation) && MutationOf(row) == KeyOf(call.owner, call.mutation)
    requires !Appends(rows, row, RevisionOf(call.phase.current))
    ensures ProgressOk(rows, call.(phase := FindConcurrent(call.phase.ancestor, call.phase.attempt)))
  {
    var key, seen := RecordOf(row), call.phase.seen;
    CountGrows(rows, key, MutationOf(row), call.started, seen);
    if FindMutation(rows, MutationOf(row)).None? {
      NewestAlreadySeen(rows, key, seen);
      CountNewVersion(rows, key, MutationOf(row), call.started, seen);
    }
  }

  lemma NewestAlreadySeen(rows: seq<Version>, key: RecordKey, n: nat)
    requires n <= |rows|
    ensures NewestIndex(rows, key) < n ==> GetCurrent(rows, key) == GetCurrent(rows[..n], key)
  {
    var now, before := NewestIndex(rows, key), NewestIndex(rows[..n], key);
    assert 0 <= now < n ==> rows[..n][now] == rows[now];
    assert before >= 0 ==> rows[..n][before] == rows[before];
  }

  lemma AdvanceKeepsProgress(rows: seq<Version>, keys: UserKeys, call: Call)
    requires Reads(call.phase) && ProgressOk(rows, call)
    ensures ProgressOk(rows, call.(phase := AdvancePhase(rows, keys, call)))
  {
    assert rows[..|rows|] == rows;
  }

  lemma InsertKeepsProgress(s: State, id: nat, sequence: nat, revision: string, createdAt: int)
    requires ProgressInv(s) && Enabled(s, Insert(id, sequence, revision, createdAt))
    ensures ProgressInv(InsertStep(s, id, sequence, revision, createdAt))
  {
    var call, row := s.calls[id], NewRow(s.calls[id], sequence, revision, createdAt);
    if Appends(s.rows, row, RevisionOf(call.phase.current)) {
      forall other | other in s.calls ensures ProgressOk(s.rows + [row], s.calls[other]) {
        ProgressSurvivesAppend(s.rows, row, s.calls[other]);
      }
    } else {
      RefusalHasCause(s.rows, call, row);
    }
  }

  lemma UpdateKeepsProgress(s: State, id: nat)
    requires ProgressInv(s) && Enabled(s, UpdateForRotation(id))
    ensures ProgressInv(Next(s, UpdateForRotation(id)))
  {
    var updated := ReplacePayload(s.rows, s.jobs[id].phase.row, s.jobs[id].phase.envelope);
    forall other | other in s.calls ensures ProgressOk(updated, s.calls[other]) {
      ProgressSurvivesUpdate(s.rows, updated, s.calls[other]);
    }
  }

  lemma AdvanceStepKeepsProgress(s: State, id: nat)
    requires ProgressInv(s) && Enabled(s, Advance(id))
    ensures ProgressInv(Next(s, Advance(id)))
  {
    AdvanceKeepsProgress(s.rows, s.keys, s.calls[id]);
  }

  lemma OtherStepKeepsProgress(s: State, e: Event)
    requires ProgressInv(s) && Enabled(s, e) && !e.Advance? && !e.Insert? && !e.UpdateForRotation?
    ensures ProgressInv(Next(s, e))
  {
  }

  lemma StepKeepsProgress(s: State, e: Event)
    requires ProgressInv(s)
    ensures ProgressInv(Step(s, e))
  {
    if Enabled(s, e) {
      match e
      case Advance(id) => AdvanceStepKeepsProgress(s, id);
      case Insert(id, sequence, revision, createdAt) => InsertKeepsProgress(s, id, sequence, revision, createdAt);
      case UpdateForRotation(id) => UpdateKeepsProgress(s, id);
      case _ => OtherStepKeepsProgress(s, e);
    }
  }

  lemma {:induction false} RunKeepsProgress(s: State, events: seq<Event>)
    requires ProgressInv(s)
    ensures ProgressInv(Run(s, events))
  {
    if events != [] {
      RunKeepsProgress(s, events[..|events| - 1]);
      StepKeepsProgress(Run(s, events[..|events| - 1]), events[|events| - 1]);
    }
  }

  // A push that failed with a conflict saw at least max(1, retries) versions of its record
  // appended by other mutations after it began.
  lemma ConflictMeansCompetition(events: seq<Event>, id: nat)
    requires var s := Run(INITIAL, events); id in s.calls && s.calls[id].phase == Finished(SyncConflictError)
    ensures var s := Run(INITIAL, events);
      var call := s.calls[id];
      CompetingSince(s.rows, Target(call.owner, call.mutation), KeyOf(call.owner, call.mutation), call.started) >= call.maxAttempts >= 1
  {
    RunKeepsProgress(INITIAL, events);
  }

  // The retries a call has used up, while it is under way.
  function AttemptsUsed(phase: Phase): nat {
    match phase
    case ReadCurrent(_, attempt) => attempt
    case OpenCurrent(_, attempt, _, _) => attempt
    case SealLogical(_, attempt, _, _, _) => attempt
    case InsertRow(_, attempt, _, _, _, _) => attempt
    case FindConcurrent(_, attempt) => attempt
    case _ => 0
  }

  function Competing(rows: seq<Version>, call: Call): nat {
    CompetingSince(rows, Target(call.owner, call.mutation), KeyOf(call.owner, call.mutation), call.started)
  }

  // With no version by others and none of its own, the call's insert finds what it expects.
  lemma FirstInsertApplies(rows: seq<Version>, call: Call)
    requires ProgressOk(rows, call) && call.phase.InsertRow? && Competing(rows, call) == 0
    requires FindMutation(rows, KeyOf(call.owner, call.mutation)).None?
    ensures RevisionOf(GetCurrent(rows, Target(call.owner, call.mutation))) == RevisionOf(call.phase.current)
  {
    var key, mine, seen := Target(call.owner, call.mutation), KeyOf(call.owner, call.mutation), call.phase.seen;
    NewestAlreadySeen(rows, key, seen);
    if NewestIndex(rows, key) >= seen {
      CountNewVersion(rows, key, mine, call.started, seen);
    }
  }

  // Every retry was forced by a competing version. So without competition a push never leaves
  // its first attempt and never fails with a conflict: its insert takes effect, unless the
  // mutation is stored already, and then it is found.
  lemma RetriesMeanCompetition(events: seq<Event>, id: nat)
    requires id in Run(INITIAL, events).calls
    ensures var s := Run(INITIAL, events);
      var call := s.calls[id];
      var stored := FindMutation(s.rows, KeyOf(call.owner, call.mutation)).Some?;
      && AttemptsUsed(call.phase) <= Competing(s.rows, call)
      && (Competing(s.rows, call) == 0 ==>
            && call.phase != Finished(SyncConflictError)
            && (call.phase.FindConcurrent? ==> stored)
            && (call.phase.InsertRow? && !stored ==>
                  RevisionOf(GetCurrent(s.rows, Target(call.owner, call.mutation))) == RevisionOf(call.phase.current)))
  {
    RunKeepsProgress(INITIAL, events);
    var s := Run(INITIAL, events);
    AttemptsMeanCompetition(s.rows, s.calls[id]);
  }

  lemma AttemptsMeanCompetition(rows: seq<Version>, call: Call)
    requires ProgressOk(rows, call)
    ensures AttemptsUsed(call.phase) <= Competing(rows, call)
    ensures Competing(rows, call) == 0 ==>
      && call.phase != Finished(SyncConflictError)
      && (call.phase.FindConcurrent? ==> FindMutation(rows, KeyOf(call.owner, call.mutation)).Some?)
      && (call.phase.InsertRow? && FindMutation(rows, KeyOf(call.owner, call.mutation)).None? ==>
            RevisionOf(GetCurrent(rows, Target(call.owner, call.mutation))) == RevisionOf(call.phase.current))
  {
    if call.phase.OpenCurrent? || call.phase.SealLogical? || call.phase.InsertRow? {
      CountGrows(rows, Target(call.owner, call.mutation), KeyOf(call.owner, call.mutation), call.started, call.phase.seen);
    }
    if call.phase.InsertRow? && Competing(rows, call) == 0 && FindMutation(rows, KeyOf(call.owner, call.mutation)).None? {
      FirstInsertApplies(rows, call);
    }
  }
}
