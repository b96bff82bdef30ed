// The server's synchronisation use cases over the records table. Here the payload column
// is read through the codec, so rows hold their objects.
module SyncServer {
  import opened Base
  import opened Json
  import opened Merge
  import opened Cursor
  import opened SyncLog
  import opened PushProtocol
  import opened PushProgress

  datatype SyncError = SyncConflict

  datatype MutationResult = MutationResult(mutationId: string, status: Status, change: Version)

  datatype PullResult = PullResult(changes: seq<Version>, cursor: string, hasMore: bool)

  // The random revision and the time a push stamps on the row it stores.
  datatype Draw = Draw(revision: string, createdAt: int)

  // A row another writer inserts under the same compare-and-append.
  datatype ForeignInsert = ForeignInsert(row: Version, expected: Option<string>)

  function NextSequence(rows: seq<Version>): nat {
    if rows == [] then 1 else rows[|rows| - 1].sequence + 1
  }

  predicate IsFresh(rows: seq<Version>, row: Version) {
    forall i | 0 <= i < |rows| :: rows[i].sequence < row.sequence && rows[i].revision != row.revision
  }

  // The table's constraints, row by row: each row was inserted with a new sequence, a new
  // revision and a new mutation.
  ghost predicate Constrained(rows: seq<Version>) {
    rows == [] || (
      var n := |rows| - 1;
      Constrained(rows[..n]) && FreshRow(rows[..n], rows[n]) && FindMutation(rows[..n], MutationOf(rows[n])).None?)
  }

  lemma {:induction false} ConstrainedIsWellFormed(rows: seq<Version>)
    requires Constrained(rows)
    ensures WellFormed(rows)
  {
    if rows != [] {
      var n := |rows| - 1;
      ConstrainedIsWellFormed(rows[..n]);
      AppendKeepsWellFormed(rows[..n], rows[n], RevisionOf(GetCurrent(rows[..n], RecordOf(rows[n]))));
      assert rows == rows[..n] + [rows[n]];
    }
  }

  lemma AppendKeepsConstrained(rows: seq<Version>, row: Version, expected: Option<string>)
    requires Constrained(rows) && FreshRow(rows, row)
    ensures Constrained(AppendRow(rows, row, expected))
  {
    assert (rows + [row])[..|rows|] == rows;
  }

  // None of these revisions is among the rows from position `from` on.
  predicate NamesNot(rows: seq<Version>, from: nat, reserved: set<string>) {
    |rows| <= from || (rows[|rows| - 1].revision !in reserved && NamesNot(rows[..|rows| - 1], from, reserved))
  }

  lemma {:induction false} NamesNotAt(rows: seq<Version>, from: nat, reserved: set<string>, i: nat)
    requires NamesNot(rows, from, reserved) && from <= i < |rows|
    ensures rows[i].revision !in reserved
  {
    if i < |rows| - 1 {
      NamesNotAt(rows[..|rows| - 1], from, reserved, i);
    }
  }

  lemma {:induction false} NamesNotFewer(rows: seq<Version>, from: nat, reserved: set<string>, fewer: set<string>)
    requires NamesNot(rows, from, reserved) && fewer <= reserved
    ensures NamesNot(rows, from, fewer)
  {
    if |rows| > from {
      NamesNotFewer(rows[..|rows| - 1], from, reserved, fewer);
    }
  }

  lemma {:induction false} NamesNotJoin(rows: seq<Version>, more: seq<Version>, from: nat, reserved: set<string>)
    requires rows <= more && NamesNot(rows, from, reserved) && NamesNot(more, |rows|, reserved)
    ensures NamesNot(more, from, reserved)
  {
    if |more| > |rows| {
      NamesNotJoin(rows, more[..|more| - 1], from, reserved);
    } else {
      assert more == rows;
    }
  }

  lemma StoredNamesNot(initial: seq<Version>, before: seq<Version>, row: Version, reserved: set<string>)
    requires initial <= before && NamesNot(before, |initial|, reserved)
    ensures NamesNot(before + [row], |initial|, reserved - {row.revision})
  {
    NamesNotFewer(before, |initial|, reserved, reserved - {row.revision});
    NamesNotAppend(before, row, |initial|, reserved - {row.revision});
  }

  lemma NamesNotAppend(rows: seq<Version>, row: Version, from: nat, reserved: set<string>)
    requires NamesNot(rows, from, reserved) && row.revision !in reserved
    ensures NamesNot(rows + [row], from, reserved)
  {
    assert (rows + [row])[..|rows|] == rows;
  }

  function NewVersion(sequence: nat, owner: string, m: Mutation, revision: string, current: Option<Version>,
                      logical: Option<JsonObject>, createdAt: int): Version {
    Version(sequence, owner, m.collection, m.recordId, m.deviceId, m.mutationId, revision,
      RevisionOf(current), if logical.Some? then Some(Plain(logical.value)) else None, logical.None?, createdAt)
  }

  // The table after one push that no other writer disturbs.
  function Pushed(rows: seq<Version>, owner: string, m: Mutation, draw: Draw): seq<Version> {
    if FindMutation(rows, KeyOf(owner, m)).Some? then rows
    else rows + [Outcome(rows, Accepted(owner, m, NextSequence(rows), draw.revision, draw.createdAt))]
  }

  function PushedAll(rows: seq<Version>, owner: string, mutations: seq<Mutation>, draws: seq<Draw>): seq<Version>
    requires |mutations| == |draws|
  {
    if mutations == [] then rows else
      var n := |mutations| - 1;
      Pushed(PushedAll(rows, owner, mutations[..n], draws[..n]), owner, mutations[n], draws[n])
  }

  function Revisions(draws: seq<Draw>): set<string> {
    if draws == [] then {} else {draws[0].revision} + Revisions(draws[1..])
  }

  predicate Distinct(draws: seq<Draw>) {
    draws == [] || (draws[0].revision !in Revisions(draws[1..]) && Distinct(draws[1..]))
  }

  // The answer to a push that stored row n.
  ghost predicate StoredAt(rows: seq<Version>, n: nat, owner: string, m: Mutation, result: MutationResult) {
    && n < |rows| && rows[n] == result.change
    && rows[n] == Outcome(rows[..n], Accepted(owner, m, rows[n].sequence, rows[n].revision, rows[n].createdAt))
    && result.status == if Conflicted(GetCurrent(rows[..n], Target(owner, m)), m) then Status.Merged else Applied
  }

  // A successful answer: the mutation's own row is stored, and if this call stored it, after
  // the first `from` rows, it is the mutation's outcome on the rows before it.
  ghost predicate Answers(rows: seq<Version>, result: MutationResult, from: nat, owner: string, m: Mutation) {
    && result.mutationId == m.mutationId
    && FindMutation(rows, KeyOf(owner, m)) == Some(result.change)
    && (result.status != Replayed ==> exists n :: from <= n && StoredAt(rows, n, owner, m, result))
  }

  // A pass failed: one more version of the record was stored by someone else, and everything
  // the next pass relies on still holds.
  ghost predicate Outrun(initial: seq<Version>, rows: seq<Version>, owner: string, m: Mutation,
                         ancestor: Option<JsonObject>, revision: string, started: nat) {
    && FindMutation(rows, KeyOf(owner, m)).None?
    && ancestor == Ancestor(rows, owner, m) && NamesNot(rows, 0, {revision})
    && CompetingSince(rows, Target(owner, m), KeyOf(owner, m), started)
       > CompetingSince(initial, Target(owner, m), KeyOf(owner, m), started)
  }

  class SyncRepository {
    var rows: seq<Version>
    // What other writers do at each point where this process awaits; any script is possible.
    var others: seq<seq<ForeignInsert>>
    // Revisions this process has drawn or was told; no other writer comes up with them.
    var reserved: set<string>

    ghost predicate Valid()
      reads this
    {
      Constrained(rows)
    }

    constructor (others: seq<seq<ForeignInsert>>)
      ensures Valid() && rows == [] && this.others == others
    {
      rows, this.others, reserved := [], others, {};
    }

    // Lets the other writers run until this process continues.
    method Await()
      requires Valid()
      modifies this`rows, this`others
      ensures Valid() && old(rows) <= rows
      ensures NamesNot(rows, |old(rows)|, reserved)
      ensures old(others) == [] ==> rows == old(rows) && others == []
    {
      if others != [] {
        var inserts := others[0];
        others := others[1..];
        for i := 0 to |inserts|
          invariant Valid() && old(rows) <= rows && NamesNot(rows, |old(rows)|, reserved)
        {
          if IsFresh(rows, inserts[i].row) && inserts[i].row.revision !in reserved {
            AppendKeepsConstrained(rows, inserts[i].row, inserts[i].expected);
            NamesNotAppend(rows, inserts[i].row, |old(rows)|, reserved);
            rows := AppendRow(rows, inserts[i].row, inserts[i].expected);
          }
        }
      }
    }

    method Append(row: Version, expected: Option<string>) returns (inserted: bool)
      requires Valid() && FreshRow(rows, row)
      modifies this`rows
      ensures Valid() && rows == AppendRow(old(rows), row, expected)
      ensures inserted == Appends(old(rows), row, expected)
    {
      AppendKeepsConstrained(rows, row, expected);
      inserted := Appends(rows, row, expected);
      if inserted {
        rows := rows + [row];
      }
    }

    // Merges only when the current version is not the one the client built on.
    method Resolve(ancestor: Option<JsonObject>, current: Option<Version>, m: Mutation) returns (logical: Option<JsonObject>)
      ensures logical == Decide(ancestor, current, m)
    {
      logical := ClientPayload(m);
      if RevisionOf(current) != m.baseRevision {
        logical := DefaultThreeWayMerge(ancestor, CurrentPayload(current), ClientPayload(m));
      }
    }

    // Appends the decided row where the version read before is still current.
    method Store(owner: string, m: Mutation, current: Option<Version>, logical: Option<JsonObject>, draw: Draw,
                 ghost initial: seq<Version>, ghost seen: seq<Version>, ghost started: nat)
      returns (result: Option<MutationResult>, ghost row: Version)
      requires Valid() && initial <= rows && NamesNot(rows, |initial|, reserved)
      requires started <= |rows| && seen <= rows && NamesNot(rows, 0, {draw.revision})
      requires Ancestor(seen, owner, m) == Ancestor(rows, owner, m)
      requires current == GetCurrent(seen, Target(owner, m)) && logical == Decide(Ancestor(seen, owner, m), current, m)
      modifies this`rows
      ensures Valid() && RecordOf(row) == Target(owner, m) && MutationOf(row) == KeyOf(owner, m) && row.revision == draw.revision
      ensures result.Some? ==> rows == old(rows) + [row] && Answers(rows, result.value, started, owner, m)
      ensures result.Some? ==> NamesNot(rows, |initial|, reserved - {draw.revision})
      ensures result.None? ==> rows == old(rows) && !Appends(rows, row, RevisionOf(GetCurrent(seen, RecordOf(row))))
      ensures seen == old(rows) && FindMutation(old(rows), KeyOf(owner, m)).None? ==>
        result.Some? && rows == Pushed(old(rows), owner, m, draw)
    {
      var appended := NewVersion(NextSequence(rows), owner, m, draw.revision, current, logical, draw.createdAt);
      row := appended;
      StoredRow(initial, seen, rows, owner, m, current, logical, draw, started, reserved);
      var inserted := Append(appended, appended.baseRevision);
      result := if inserted then Some(AnswerFor(m, current, appended)) else None;
    }

    // After a refused insert: the mutation may be there by now. None means that the push must be retried.
    method Recheck(owner: string, m: Mutation, ghost ancestor: Option<JsonObject>, ghost row: Version,
                   ghost initial: seq<Version>, ghost seen: seq<Version>, ghost started: nat)
      returns (result: Option<MutationResult>)
      requires Valid() && NamesNot(rows, 0, {row.revision}) && Names(m, row.revision) <= reserved
      requires ancestor == Ancestor(rows, owner, m)
      requires started <= |initial| && initial <= seen <= rows && NamesNot(rows, |initial|, reserved)
      requires RecordOf(row) == Target(owner, m) && MutationOf(row) == KeyOf(owner, m)
      requires !Appends(rows, row, RevisionOf(GetCurrent(seen, RecordOf(row))))
      modifies this`rows, this`others
      ensures Valid() && old(rows) <= rows && NamesNot(rows, |initial|, reserved - {row.revision})
      ensures result.Some? ==> Answers(rows, result.value, started, owner, m)
      ensures result.None? ==> Outrun(initial, rows, owner, m, ancestor, row.revision, started)
      ensures old(others) == [] ==> others == []
    {
      ghost var before := rows;
      Await();
      AwaitKeeps(before, rows, owner, m, row.revision, reserved);
      NamesNotJoin(before, rows, |initial|, reserved);
      NamesNotFewer(rows, |initial|, reserved, reserved - {row.revision});
      var concurrent := FindMutation(rows, KeyOf(owner, m));
      result := if concurrent.None? then None else Some(MutationResult(m.mutationId, Replayed, concurrent.value));
      if concurrent.None? {
        RefusedByCompetitor(initial, seen, before, rows, row, KeyOf(owner, m), started);
      }
    }

    // Stores the decided row, or finds out why it was refused.
    method Settle(owner: string, m: Mutation, current: Option<Version>, logical: Option<JsonObject>, draw: Draw,
                  ghost ancestor: Option<JsonObject>, ghost initial: seq<Version>, ghost seen: seq<Version>, ghost started: nat)
      returns (result: Option<MutationResult>)
      requires Valid() && initial <= seen <= rows && NamesNot(rows, |initial|, reserved)
      requires started <= |initial| && NamesNot(rows, 0, {draw.revision}) && Names(m, draw.revision) <= reserved
      requires ancestor == Ancestor(seen, owner, m) == Ancestor(rows, owner, m)
      requires current == GetCurrent(seen, Target(owner, m)) && logical == Decide(ancestor, current, m)
      modifies this`rows, this`others
      ensures Valid() && old(rows) <= rows && NamesNot(rows, |initial|, reserved - {draw.revision})
      ensures result.Some? ==> Answers(rows, result.value, started, owner, m)
      ensures result.None? ==> Outrun(initial, rows, owner, m, ancestor, draw.revision, started)
      ensures old(others) == [] ==> others == []
      ensures seen == old(rows) && FindMutation(old(rows), KeyOf(owner, m)).None? ==>
        result.Some? && rows == Pushed(old(rows), owner, m, draw)
    {
      ghost var row;
      result, row := Store(owner, m, current, logical, draw, initial, seen, started);
      if result.None? {
        result := Recheck(owner, m, ancestor, row, initial, seen, started);
      }
    }

    // Reads the current version, decides and seals what to store; `seen` is the table as read.
    method Observe(owner: string, m: Mutation, ancestor: Option<JsonObject>, revision: string)
      returns (current: Option<Version>, logical: Option<JsonObject>, ghost seen: seq<Version>)
      requires Valid() && NamesNot(rows, 0, {revision}) && Names(m, revision) <= reserved
      requires ancestor == Ancestor(rows, owner, m)
      modifies this`rows, this`others
      ensures Valid() && old(rows) <= seen <= rows && NamesNot(rows, |old(rows)|, reserved)
      ensures current == GetCurrent(seen, Target(owner, m)) && logical == Decide(ancestor, current, m)
      ensures ancestor == Ancestor(seen, owner, m) == Ancestor(rows, owner, m) && NamesNot(rows, 0, {revision})
      ensures old(others) == [] ==> rows == old(rows) && others == []
    {
      ghost var initial := rows;
      Await();
      seen := rows;
      AwaitKeeps(initial, seen, owner, m, revision, reserved);
      current := GetCurrent(rows, Target(owner, m));
      logical := Resolve(ancestor, current, m);
      Await();
      AwaitKeeps(seen, rows, owner, m, revision, reserved);
      NamesNotJoin(seen, rows, |initial|, reserved);
    }

    // One pass of the retry loop; None means that it must be repeated.
    method Attempt(owner: string, m: Mutation, ancestor: Option<JsonObject>, draw: Draw, ghost started: nat)
      returns (result: Option<MutationResult>)
      requires Valid() && started <= |rows|
      requires NamesNot(rows, 0, {draw.revision}) && Names(m, draw.revision) <= reserved
      requires ancestor == Ancestor(rows, owner, m)
      modifies this`rows, this`others
      ensures Valid() && old(rows) <= rows && NamesNot(rows, |old(rows)|, reserved - {draw.revision})
      ensures result.Some? ==> Answers(rows, result.value, started, owner, m)
      ensures result.None? ==> Outrun(old(rows), rows, owner, m, ancestor, draw.revision, started)
      ensures old(others) == [] ==> others == []
      ensures old(others) == [] && FindMutation(old(rows), KeyOf(owner, m)).None? ==>
        result.Some? && rows == Pushed(old(rows), owner, m, draw)
    {
      ghost var initial := rows;
      var current, logical;
      ghost var seen;
      current, logical, seen := Observe(owner, m, ancestor, draw.revision);
      result := Settle(owner, m, current, logical, draw, ancestor, initial, seen, started);
    }

    // The retry loop, with other writers running at every await.
    method PushMutation(owner: string, m: Mutation, maxConflictRetries: Option<int>, draw: Draw)
      returns (result: Result<MutationResult, SyncError>)
      requires Valid()
      requires NamesNot(rows, 0, {draw.revision}) && Names(m, draw.revision) <= reserved
      modifies this`rows, this`others
      ensures Valid() && old(rows) <= rows
      ensures result.Success? ==> Answers(rows, result.value, |old(rows)|, owner, m)
      ensures NamesNot(rows, |old(rows)|, reserved - {draw.revision})
      ensures result.Failure? ==> result.error == SyncConflict
      ensures result.Failure? ==>
        CompetingSince(rows, Target(owner, m), KeyOf(owner, m), |old(rows)|) >= MaxAttempts(maxConflictRetries)
      ensures old(others) == [] ==> result.Success? && others == []
      ensures old(others) == [] ==> rows == Pushed(old(rows), owner, m, draw)
    {
      ghost var initial := rows;
      var replay := FindMutation(rows, KeyOf(owner, m));
      if replay.Some? {
        return Success(MutationResult(m.mutationId, Replayed, replay.value));
      }
      Await();
      AwaitKeeps(initial, rows, owner, m, draw.revision, reserved);
      NamesNotFewer(rows, |initial|, reserved, reserved - {draw.revision});
      var ancestor := Ancestor(rows, owner, m);
      var maxAttempts := MaxAttempts(maxConflictRetries);
      var attempt := 0;
      while attempt < maxAttempts
        invariant Valid() && initial <= rows && NamesNot(rows, 0, {draw.revision})
        invariant NamesNot(rows, |initial|, reserved - {draw.revision})
        invariant ancestor == Ancestor(rows, owner, m)
        invariant attempt <= maxAttempts
        invariant CompetingSince(rows, Target(owner, m), KeyOf(owner, m), |initial|) >= attempt
        invariant old(others) == [] ==> attempt == 0 && others == [] && rows == initial
      {
        ghost var before := rows;
        var answer := Attempt(owner, m, ancestor, draw, |initial|);
        NamesNotJoin(before, rows, |initial|, reserved - {draw.revision});
        if answer.Some? {
          return Success(answer.value);
        }
        attempt := attempt + 1;
      }
      return Failure(SyncConflict);
    }

    // Pushes a batch, one mutation after the other; the first conflict ends it.
    method PushMutations(owner: string, mutations: seq<Mutation>, maxConflictRetries: Option<int>, draws: seq<Draw>)
      returns (answer: Result<seq<MutationResult>, SyncError>)
      requires Valid() && |draws| == |mutations|
      requires NamesNot(rows, 0, Revisions(draws)) && Revisions(draws) <= reserved && Distinct(draws)
      requires forall m | m in mutations && m.baseRevision.Some? :: m.baseRevision.value in reserved
      modifies this`rows, this`others
      ensures Valid() && old(rows) <= rows
      ensures answer.Success? ==> AllAnswered(rows, answer.value, |old(rows)|, owner, mutations)
      ensures answer.Failure? ==> answer.error == SyncConflict
      ensures old(others) == [] ==> answer.Success? && others == [] && rows == PushedAll(old(rows), owner, mutations, draws)
    {
      ghost var initial := rows;
      var results := [];
      for i := 0 to |mutations|
        invariant Valid() && initial <= rows
        invariant NamesNot(rows, 0, Revisions(draws[i..])) && Revisions(draws[i..]) <= reserved && Distinct(draws[i..])
        invariant AllAnswered(rows, results, |initial|, owner, mutations[..i])
        invariant old(others) == [] ==> others == [] && rows == PushedAll(initial, owner, mutations[..i], draws[..i])
      {
        ghost var before := rows;
        assert draws[i..][1..] == draws[i + 1..] && mutations[i] in mutations;
        NamesNotFewer(rows, 0, Revisions(draws[i..]), {draws[i].revision});
        var result := PushMutation(owner, mutations[i], maxConflictRetries, draws[i]);
        if result.Failure? {
          return Failure(result.error);
        }
        NamesNotFewer(rows, |before|, reserved - {draws[i].revision}, Revisions(draws[i + 1..]));
        NamesNotFewer(before, 0, Revisions(draws[i..]), Revisions(draws[i + 1..]));
        NamesNotJoin(before, rows, 0, Revisions(draws[i + 1..]));
        OneMoreAnswer(before, rows, results, result.value, |initial|, owner, mutations, i);
        OneMorePushed(initial, owner, mutations, draws, i);
        results := results + [result.value];
      }
      assert mutations[..|mutations|] == mutations && draws[..|draws|] == draws;
      return Success(results);
    }

    // One page of an owner's changes after a sequence.
    method ReadPage(owner: string, after: nat, limit: nat) returns (answer: Result<PullResult, CursorError>)
      ensures answer.Success? <==> PullPage(rows, owner, after, limit).cursor <= MAX_SAFE_INTEGER
      ensures answer.Success? ==>
        var page := PullPage(rows, owner, after, limit);
        && answer.value.changes == page.changes && answer.value.hasMore == page.hasMore
        && DecodeCursor(Some(answer.value.cursor)) == Success(page.cursor)
    {
      var versions := ListChanges(rows, owner, after, limit + 1);
      var page := if |versions| > limit then versions[..limit] else versions;
      var sequence := if page == [] then after else page[|page| - 1].sequence;
      var next := NextCursor(sequence);
      answer := if next.Success? then Success(PullResult(page, next.value, |versions| > limit)) else Failure(next.error);
    }

    // One page of an owner's changes after a cursor.
    method PullChanges(owner: string, cursor: Option<string>, limit: nat) returns (answer: Result<PullResult, CursorError>)
      ensures var after := DecodeCursor(cursor);
        if after.Failure? then answer == Failure(after.error) else
          var page := PullPage(rows, owner, after.value, limit);
          if page.cursor > MAX_SAFE_INTEGER then answer.Failure? else
            answer.Success? && answer.value.changes == page.changes && answer.value.hasMore == page.hasMore
            && DecodeCursor(Some(answer.value.cursor)) == Success(page.cursor)
    {
      var after := DecodeCursor(cursor);
      if after.Failure? {
        answer := Failure(after.error);
      } else {
        answer := ReadPage(owner, after.value, limit);
      }
    }
  }

  method NextCursor(sequence: nat) returns (cursor: Result<string, CursorError>)
    ensures cursor.Success? <==> sequence <= MAX_SAFE_INTEGER
    ensures cursor.Success? ==> DecodeCursor(Some(cursor.value)) == Success(sequence)
  {
    cursor := EncodeCursor(sequence);
    if sequence <= MAX_SAFE_INTEGER {
      CursorRoundTrip(sequence);
    }
  }

  // Every mutation of a batch is answered, in order.
  ghost predicate AllAnswered(rows: seq<Version>, results: seq<MutationResult>, from: nat, owner: string, mutations: seq<Mutation>) {
    |results| == |mutations| && forall i :: 0 <= i < |results| ==> Answers(rows, results[i], from, owner, mutations[i])
  }

  lemma AnswerLasts(rows: seq<Version>, more: seq<Version>, result: MutationResult, from: nat, owner: string, m: Mutation)
    requires rows <= more && Answers(rows, result, from, owner, m)
    ensures Answers(more, result, from, owner, m)
  {
    var i := MutationIndex(rows, KeyOf(owner, m));
    assert more[i] == rows[i];
    if result.status != Replayed {
      var n :| from <= n && StoredAt(rows, n, owner, m, result);
      assert more[..n] == rows[..n];
      assert StoredAt(more, n, owner, m, result);
    }
  }

  lemma OneMoreAnswer(before: seq<Version>, rows: seq<Version>, results: seq<MutationResult>, result: MutationResult, from: nat,
                      owner: string, mutations: seq<Mutation>, i: nat)
    requires from <= |before| && before <= rows && i < |mutations|
    requires AllAnswered(before, results, from, owner, mutations[..i])
    requires Answers(rows, result, |before|, owner, mutations[i])
    ensures AllAnswered(rows, results + [result], from, owner, mutations[..i + 1])
  {
    forall k | 0 <= k < i ensures Answers(rows, results[k], from, owner, mutations[k]) {
      AnswerLasts(before, rows, results[k], from, owner, mutations[..i][k]);
    }
    if result.status != Replayed {
      var n :| |before| <= n && StoredAt(rows, n, owner, mutations[i], result);
      assert from <= n;
    }
  }

  lemma OneMorePushed(rows: seq<Version>, owner: string, mutations: seq<Mutation>, draws: seq<Draw>, i: nat)
    requires |mutations| == |draws| && i < |mutations|
    ensures PushedAll(rows, owner, mutations[..i + 1], draws[..i + 1])
         == Pushed(PushedAll(rows, owner, mutations[..i], draws[..i]), owner, mutations[i], draws[i])
  {
    assert mutations[..i + 1][..i] == mutations[..i] && draws[..i + 1][..i] == draws[..i];
  }

  // The revisions a push of this mutation draws and names.
  function Names(m: Mutation, revision: string): set<string> {
    {revision} + if m.baseRevision.Some? then {m.baseRevision.value} else {}
  }

  lemma NextIsFresh(rows: seq<Version>, row: Version)
    requires Constrained(rows) && row.sequence == NextSequence(rows) && NamesNot(rows, 0, {row.revision})
    ensures FreshRow(rows, row)
  {
    ConstrainedIsWellFormed(rows);
    forall i | 0 <= i < |rows| ensures rows[i].revision != row.revision {
      NamesNotAt(rows, 0, {row.revision}, i);
    }
  }

  // What this process knows outlives the rows other writers insert meanwhile.
  lemma AwaitKeeps(rows: seq<Version>, more: seq<Version>, owner: string, m: Mutation, revision: string, reserved: set<string>)
    requires rows <= more && NamesNot(rows, 0, {revision})
    requires NamesNot(more, |rows|, reserved) && Names(m, revision) <= reserved
    ensures NamesNot(more, 0, {revision})
    ensures Ancestor(more, owner, m) == Ancestor(rows, owner, m)
  {
    NamesNotFewer(more, |rows|, reserved, {revision});
    NamesNotJoin(rows, more, 0, {revision});
    if m.baseRevision.Some? {
      NamesNotFewer(more, |rows|, reserved, {m.baseRevision.value});
    }
    AncestorSurvives(rows, more, owner, m);
  }

  function AnswerFor(m: Mutation, current: Option<Version>, row: Version): MutationResult {
    MutationResult(m.mutationId, if RevisionOf(current) != m.baseRevision then Status.Merged else Applied, row)
  }

  // What storing the decided row would mean.
  lemma StoredRow(initial: seq<Version>, seen: seq<Version>, rows: seq<Version>, owner: string, m: Mutation, current: Option<Version>,
                  logical: Option<JsonObject>, draw: Draw, started: nat, reserved: set<string>)
    requires Constrained(rows) && initial <= rows && NamesNot(rows, |initial|, reserved)
    requires started <= |rows| && seen <= rows && NamesNot(rows, 0, {draw.revision})
    requires Ancestor(seen, owner, m) == Ancestor(rows, owner, m)
    requires current == GetCurrent(seen, Target(owner, m)) && logical == Decide(Ancestor(seen, owner, m), current, m)
    ensures var row := NewVersion(NextSequence(rows), owner, m, draw.revision, current, logical, draw.createdAt);
      && FreshRow(rows, row) && RecordOf(row) == Target(owner, m) && MutationOf(row) == KeyOf(owner, m)
      && row.baseRevision == RevisionOf(GetCurrent(seen, RecordOf(row)))
      && (Appends(rows, row, row.baseRevision) ==>
            Answers(rows + [row], AnswerFor(m, current, row), started, owner, m)
            && NamesNot(rows + [row], |initial|, reserved - {draw.revision}))
      && (seen == rows && FindMutation(rows, KeyOf(owner, m)).None? ==>
            Appends(rows, row, row.baseRevision) && rows + [row] == Pushed(rows, owner, m, draw))
  {
    var row := NewVersion(NextSequence(rows), owner, m, draw.revision, current, logical, draw.createdAt);
    DecidedRow(seen, owner, m, row.sequence, current, logical, draw);
    NextIsFresh(rows, row);
    StoredNamesNot(initial, rows, row, reserved);
    UndisturbedRow(rows, owner, m, draw);
    if Appends(rows, row, row.baseRevision) {
      AppendedAnswers(seen, rows, owner, m, AnswerFor(m, current, row), started);
    }
  }

  // The row that is built is the outcome of the mutation on the rows it was decided from.
  lemma DecidedRow(seen: seq<Version>, owner: string, m: Mutation, sequence: nat, current: Option<Version>, logical: Option<JsonObject>, draw: Draw)
    requires current == GetCurrent(seen, Target(owner, m)) && logical == Decide(Ancestor(seen, owner, m), current, m)
    ensures NewVersion(sequence, owner, m, draw.revision, current, logical, draw.createdAt)
         == Outcome(seen, Accepted(owner, m, sequence, draw.revision, draw.createdAt))
  {
  }

  // On the very rows it was decided from it is appended, if the mutation is new.
  lemma UndisturbedRow(rows: seq<Version>, owner: string, m: Mutation, draw: Draw)
    ensures var row := Outcome(rows, Accepted(owner, m, NextSequence(rows), draw.revision, draw.createdAt));
      FindMutation(rows, KeyOf(owner, m)).None? ==> Appends(rows, row, row.baseRevision) && rows + [row] == Pushed(rows, owner, m, draw)
  {
  }

  // A row decided from the rows seen, and accepted later, is the outcome where it was accepted.
  lemma AppendedAnswers(seen: seq<Version>, before: seq<Version>, owner: string, m: Mutation, result: MutationResult, started: nat)
    requires started <= |before| && seen <= before && Constrained(before) && Ancestor(before, owner, m) == Ancestor(seen, owner, m)
    requires var row := result.change;
      && row == Outcome(seen, Accepted(owner, m, row.sequence, row.revision, row.createdAt))
      && Appends(before, row, row.baseRevision)
    requires result.mutationId == m.mutationId
    requires result.status == if Conflicted(GetCurrent(seen, Target(owner, m)), m) then Status.Merged else Applied
    ensures var row := result.change;
      && row == Outcome(before, Accepted(owner, m, row.sequence, row.revision, row.createdAt))
      && Answers(before + [row], result, started, owner, m)
  {
    var row := result.change;
    ConstrainedIsWellFormed(before);
    SameRevisionSameVersion(seen, before, Target(owner, m));
    FoundAfterAppend(before, row);
    assert (before + [row])[..|before|] == before;
    assert StoredAt(before + [row], |before|, owner, m, result);
  }

  // Rows that do not carry the base revision do not change the ancestor.
  lemma AncestorSurvives(rows: seq<Version>, more: seq<Version>, owner: string, m: Mutation)
    requires rows <= more
    requires m.baseRevision.Some? ==> NamesNot(more, |rows|, {m.baseRevision.value})
    ensures Ancestor(more, owner, m) == Ancestor(rows, owner, m)
  {
    if m.baseRevision.Some? {
      var key, revision := Target(owner, m), m.baseRevision.value;
      var a, b := VersionIndex(rows, key, revision), VersionIndex(more, key, revision);
      assert a < |rows| ==> more[a] == rows[a];
      assert b < |rows| ==> more[b] == rows[b];
      if |rows| <= b < |more| {
        NamesNotAt(more, |rows|, {revision}, b);
      }
    }
  }

  // If the current revision is still the one that was read, so is the whole current version.
  lemma SameRevisionSameVersion(seen: seq<Version>, rows: seq<Version>, key: RecordKey)
    requires seen <= rows && WellFormed(rows)
    requires RevisionOf(GetCurrent(rows, key)) == RevisionOf(GetCurrent(seen, key))
    ensures GetCurrent(rows, key) == GetCurrent(seen, key)
  {
    var a, b := NewestIndex(seen, key), NewestIndex(rows, key);
    assert a >= 0 ==> rows[a] == seen[a];
  }

  lemma FoundAfterAppend(rows: seq<Version>, row: Version)
    requires FindMutation(rows, MutationOf(row)).None?
    ensures FindMutation(rows + [row], MutationOf(row)) == Some(row)
  {
    assert (rows + [row])[|rows|] == row;
    var i := MutationIndex(rows + [row], MutationOf(row));
    assert i < |rows| ==> MutationOf(rows[i]) == MutationOf(row);
  }

  // A refused insert of a mutation that is not there means one more competing version.
  lemma RefusedByCompetitor(initial: seq<Version>, seen: seq<Version>, before: seq<Version>, rows: seq<Version>,
                            row: Version, key: MutationKey, started: nat)
    requires started <= |initial| && initial <= seen <= before <= rows
    requires MutationOf(row) == key && FindMutation(rows, key).None?
    requires !Appends(before, row, RevisionOf(GetCurrent(seen, RecordOf(row))))
    ensures CompetingSince(rows, RecordOf(row), key, started) > CompetingSince(initial, RecordOf(row), key, started)
  {
    var target := RecordOf(row);
    assert rows[..|before|] == before && before[..|seen|] == seen && seen[..|initial|] == initial;
    FindShrinks(rows, key, |before|);
    NewestAlreadySeen(before, target, |seen|);
    CountNewVersion(before, target, key, started, |seen|);
    CountGrows(seen, target, key, started, |initial|);
    CountGrows(rows, target, key, started, |before|);
  }
}
