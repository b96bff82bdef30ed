// The server's append-only log of record versions, and the serial meaning of
// the mutations accepted into it.
module SyncLog {
  import opened Base
  import opened Json
  import opened Merge
  import opened Envelopes

  datatype Operation = PutRecord | DeleteRecord

  datatype Mutation = Mutation(
    mutationId: string,
    deviceId: string,
    collection: string,
    recordId: string,
    baseRevision: Option<string>,
    operation: Operation,
    payload: Option<JsonObject>)

  // What the payload column holds: an envelope in the database, the object itself in the
  // serial reading of the log.
  datatype Payload = Plain(content: JsonObject) | Sealed(envelope: Envelope)

  datatype Version = Version(
    sequence: nat,
    ownerSub: string,
    collection: string,
    recordId: string,
    deviceId: string,
    mutationId: string,
    revision: string,
    baseRevision: Option<string>,
    payload: Option<Payload>,
    deleted: bool,
    createdAt: int)

  datatype RecordKey = RecordKey(ownerSub: string, collection: string, recordId: string)

  datatype MutationKey = MutationKey(ownerSub: string, deviceId: string, mutationId: string)

  function RecordOf(v: Version): RecordKey { RecordKey(v.ownerSub, v.collection, v.recordId) }

  function MutationOf(v: Version): MutationKey { MutationKey(v.ownerSub, v.deviceId, v.mutationId) }

  function Target(owner: string, m: Mutation): RecordKey { RecordKey(owner, m.collection, m.recordId) }

  function KeyOf(owner: string, m: Mutation): MutationKey { MutationKey(owner, m.deviceId, m.mutationId) }

  // ----- queries; rows are listed in sequence order -----

  // The newest row of a record, or -1.
  function NewestIndex(rows: seq<Version>, key: RecordKey): (i: int)
    ensures -1 <= i < |rows|
    ensures i >= 0 ==> RecordOf(rows[i]) == key
    ensures forall j :: 0 <= j < |rows| && i < j ==> RecordOf(rows[j]) != key
  {
    if rows == [] then -1
    else if RecordOf(rows[|rows| - 1]) == key then |rows| - 1
    else NewestIndex(rows[..|rows| - 1], key)
  }

  function GetCurrent(rows: seq<Version>, key: RecordKey): Option<Version> {
    var i := NewestIndex(rows, key);
    if i < 0 then None else Some(rows[i])
  }

  // The first row with this record and revision, or |rows|.
  function VersionIndex(rows: seq<Version>, key: RecordKey, revision: string): (i: nat)
    ensures i <= |rows|
    ensures i < |rows| ==> RecordOf(rows[i]) == key && rows[i].revision == revision
    ensures forall j :: 0 <= j < i ==> !(RecordOf(rows[j]) == key && rows[j].revision == revision)
  {
    if rows == [] || (RecordOf(rows[0]) == key && rows[0].revision == revision) then 0
    else 1 + VersionIndex(rows[1..], key, revision)
  }

  function GetVersion(rows: seq<Version>, key: RecordKey, revision: string): Option<Version> {
    var i := VersionIndex(rows, key, revision);
    if i < |rows| then Some(rows[i]) else None
  }

  function MutationIndex(rows: seq<Version>, key: MutationKey): (i: nat)
    ensures i <= |rows|
    ensures i < |rows| ==> MutationOf(rows[i]) == key
    ensures forall j :: 0 <= j < i ==> MutationOf(rows[j]) != key
  {
    if rows == [] || MutationOf(rows[0]) == key then 0 else 1 + MutationIndex(rows[1..], key)
  }

  function FindMutation(rows: seq<Version>, key: MutationKey): Option<Version> {
    var i := MutationIndex(rows, key);
    if i < |rows| then Some(rows[i]) else None
  }

  // ----- compare-and-append -----

  function RevisionOf(v: Option<Version>): Option<string> {
    if v.Some? then Some(v.value.revision) else None
  }

  // The insert's condition: the expected revision is current, and the mutation is not there yet.
  predicate Appends(rows: seq<Version>, row: Version, expected: Option<string>) {
    RevisionOf(GetCurrent(rows, RecordOf(row))) == expected && FindMutation(rows, MutationOf(row)).None?
  }

  function AppendRow(rows: seq<Version>, row: Version, expected: Option<string>): seq<Version> {
    if Appends(rows, row, expected) then rows + [row] else rows
  }

  // The constraints of the table: an increasing sequence and the two unique indexes.
  ghost predicate WellFormed(rows: seq<Version>) {
    && (forall i, j :: 0 <= i < j < |rows| ==> rows[i].sequence < rows[j].sequence)
    && (forall i, j :: 0 <= i < j < |rows| ==> MutationOf(rows[i]) != MutationOf(rows[j]))
    && (forall i, j :: 0 <= i < j < |rows| && RecordOf(rows[i]) == RecordOf(rows[j]) ==> rows[i].revision != rows[j].revision)
  }

  // What the database and the random generator guarantee of a new row.
  ghost predicate FreshRow(rows: seq<Version>, row: Version) {
    forall i :: 0 <= i < |rows| ==> rows[i].sequence < row.sequence && rows[i].revision != row.revision
  }

  lemma AppendKeepsWellFormed(rows: seq<Version>, row: Version, expected: Option<string>)
    requires WellFormed(rows) && FreshRow(rows, row)
    ensures WellFormed(AppendRow(rows, row, expected))
  {
  }

  // ----- the outcome of one mutation on a log of readable payloads -----

  type Log = seq<Version>

  // The object a version stands for, whether or not its key is still at hand.
  function LogicalPayload(v: Version): Option<JsonObject> {
    if v.deleted || v.payload.None? then None else
      match v.payload.value
      case Plain(content) => Some(content)
      case Sealed(envelope) => Some(envelope.ciphertext.plaintext)
  }

  function CurrentPayload(v: Option<Version>): Option<JsonObject> {
    if v.None? then None else LogicalPayload(v.value)
  }

  function ClientPayload(m: Mutation): Option<JsonObject> {
    if m.operation == DeleteRecord then None else m.payload
  }

  // The payload of the version the mutation names as its base.
  function Ancestor(log: Log, owner: string, m: Mutation): Option<JsonObject> {
    match m.baseRevision
    case None => None
    case Some(revision) => CurrentPayload(GetVersion(log, Target(owner, m), revision))
  }

  predicate Conflicted(current: Option<Version>, m: Mutation) { RevisionOf(current) != m.baseRevision }

  // The payload to store over the current version; None stores a deletion.
  function Decide(ancestor: Option<JsonObject>, current: Option<Version>, m: Mutation): Option<JsonObject> {
    if Conflicted(current, m) then ThreeWayMerge(ancestor, CurrentPayload(current), ClientPayload(m)) else ClientPayload(m)
  }

  // An accepted mutation and what the server stamped on it.
  datatype Accepted = Accepted(owner: string, mutation: Mutation, sequence: nat, revision: string, createdAt: int)

  function Outcome(log: Log, a: Accepted): Version {
    var m := a.mutation;
    var current := GetCurrent(log, Target(a.owner, m));
    var logical := Decide(Ancestor(log, a.owner, m), current, m);
    Version(a.sequence, a.owner, m.collection, m.recordId, m.deviceId, m.mutationId, a.revision,
      RevisionOf(current), if logical.Some? then Some(Plain(logical.value)) else None, logical.None?, a.createdAt)
  }

  // Accepting mutations one at a time.
  function Serial(accepted: seq<Accepted>): (log: Log)
    ensures |log| == |accepted|
  {
    if accepted == [] then [] else
      var before := Serial(accepted[..|accepted| - 1]);
      before + [Outcome(before, accepted[|accepted| - 1])]
  }

  lemma SerialAppend(accepted: seq<Accepted>, a: Accepted)
    ensures Serial(accepted + [a]) == Serial(accepted) + [Outcome(Serial(accepted), a)]
  {
    assert (accepted + [a])[..|accepted|] == accepted;
  }

  lemma {:induction false} SerialPrefix(accepted: seq<Accepted>, n: nat)
    requires n <= |accepted|
    ensures Serial(accepted)[..n] == Serial(accepted[..n])
  {
    if n < |accepted| {
      var m := |accepted| - 1;
      SerialPrefix(accepted[..m], n);
      assert accepted[..m][..n] == accepted[..n];
      assert Serial(accepted)[..n] == Serial(accepted[..m])[..n];
    } else {
      assert accepted[..n] == accepted;
    }
  }

  // Each version of a serial log is its mutation's outcome on the versions before it.
  lemma {:induction false} SerialAt(accepted: seq<Accepted>, i: nat)
    requires i < |accepted|
    ensures Serial(accepted)[i] == Outcome(Serial(accepted)[..i], accepted[i])
  {
    SerialPrefix(accepted, i);
    SerialPrefix(accepted, i + 1);
    assert accepted[..i + 1][..i] == accepted[..i];
    assert Serial(accepted)[i] == Serial(accepted)[..i + 1][i];
  }

  // ----- a record's history is one chain -----

  // Each version names the version of its record just before it, or none if it is the first.
  ghost predicate Chained(rows: seq<Version>) {
    forall i :: 0 <= i < |rows| ==> rows[i].baseRevision == RevisionOf(GetCurrent(rows[..i], RecordOf(rows[i])))
  }

  lemma {:induction false} SerialIsChained(accepted: seq<Accepted>)
    ensures Chained(Serial(accepted))
  {
    forall i | 0 <= i < |accepted|
      ensures Serial(accepted)[i].baseRevision == RevisionOf(GetCurrent(Serial(accepted)[..i], RecordOf(Serial(accepted)[i])))
    {
      SerialAt(accepted, i);
    }
  }

  // No two versions of a record follow the same version, so histories never fork.
  lemma ChainsNeverFork(rows: seq<Version>, i: nat, j: nat)
    requires WellFormed(rows) && Chained(rows)
    requires i < j < |rows| && RecordOf(rows[i]) == RecordOf(rows[j])
    ensures rows[i].baseRevision != rows[j].baseRevision
  {
    var key := RecordOf(rows[i]);
    var before, later := NewestIndex(rows[..i], key), NewestIndex(rows[..j], key);
    assert rows[..j][i] == rows[i];
    assert later >= i;
    assert before >= 0 ==> rows[before].revision != rows[later].revision;
  }

  // ----- change pages -----

  // An owner's rows after a sequence, in order.
  function Owned(rows: seq<Version>, owner: string, after: nat): (owned: seq<Version>) {
    if rows == [] then [] else
      var last := rows[|rows| - 1];
      var rest := Owned(rows[..|rows| - 1], owner, after);
      if last.ownerSub == owner && last.sequence > after then rest + [last] else rest
  }

  function ListChanges(rows: seq<Version>, owner: string, after: nat, limit: nat): seq<Version> {
    var owned := Owned(rows, owner, after);
    if |owned| <= limit then owned else owned[..limit]
  }

  datatype Page = Page(changes: seq<Version>, cursor: nat, hasMore: bool)

  function PullPage(rows: seq<Version>, owner: string, after: nat, limit: nat): Page {
    var versions := ListChanges(rows, owner, after, limit + 1);
    var page := if |versions| > limit then versions[..limit] else versions;
    Page(page, if page == [] then after else page[|page| - 1].sequence, |versions| > limit)
  }

  ghost predicate Increasing(rows: seq<Version>) {
    forall i, j :: 0 <= i < j < |rows| ==> rows[i].sequence < rows[j].sequence
  }

  lemma {:induction false} OwnedContents(rows: seq<Version>, owner: string, after: nat)
    requires Increasing(rows)
    ensures var owned := Owned(rows, owner, after);
      && Increasing(owned)
      && (forall v :: v in owned <==> v in rows && v.ownerSub == owner && v.sequence > after)
  {
    if rows != [] {
      var n := |rows| - 1;
      OwnedContents(rows[..n], owner, after);
      assert forall v :: v in rows <==> v in rows[..n] || v == rows[n];
      var before, owned := Owned(rows[..n], owner, after), Owned(rows, owner, after);
      forall v | v in before ensures v.sequence < rows[n].sequence {
        var k :| 0 <= k < n && rows[..n][k] == v;
      }
      assert forall i :: 0 <= i < |before| ==> before[i] in before;
    }
  }

  // Rows appended later, with larger sequences, only extend what an owner can list.
  lemma {:induction false} OwnedGrows(rows: seq<Version>, more: seq<Version>, owner: string, after: nat)
    ensures Owned(rows + more, owner, after) == Owned(rows, owner, after) + Owned(more, owner, after)
  {
    if more == [] {
      assert rows + more == rows;
    } else {
      var n := |more| - 1;
      OwnedGrows(rows, more[..n], owner, after);
      assert (rows + more)[..|rows + more| - 1] == rows + more[..n];
    }
  }

  lemma {:induction false} OwnedTwice(rows: seq<Version>, owner: string, after: nat, later: nat)
    requires after <= later
    ensures Owned(Owned(rows, owner, after), owner, later) == Owned(rows, owner, later)
  {
    if rows != [] {
      var n := |rows| - 1;
      OwnedTwice(rows[..n], owner, after, later);
      var before, owned := Owned(rows[..n], owner, after), Owned(rows, owner, after);
      if owned != before {
        assert owned[..|owned| - 1] == before;
      }
    }
  }

  lemma {:induction false} OwnedAfterItem(owned: seq<Version>, owner: string, k: nat)
    requires Increasing(owned) && k < |owned| && forall i :: 0 <= i < |owned| ==> owned[i].ownerSub == owner
    ensures Owned(owned, owner, owned[k].sequence) == owned[k + 1..]
  {
    var n := |owned| - 1;
    if k < n {
      OwnedAfterItem(owned[..n], owner, k);
      assert owned[k + 1..] == owned[..n][k + 1..] + [owned[n]];
    } else {
      NoneAfterLast(owned[..n], owner, owned[n].sequence);
    }
  }

  lemma {:induction false} NoneAfterLast(rows: seq<Version>, owner: string, last: nat)
    requires forall i :: 0 <= i < |rows| ==> rows[i].sequence <= last
    ensures Owned(rows, owner, last) == []
  {
    if rows != [] {
      NoneAfterLast(rows[..|rows| - 1], owner, last);
    }
  }

  // Continuing after the k-th listed row lists exactly the rows after it.
  lemma OwnedContinues(rows: seq<Version>, owner: string, after: nat, k: nat)
    requires Increasing(rows) && k < |Owned(rows, owner, after)|
    ensures var owned := Owned(rows, owner, after);
      && owned[k].sequence > after
      && owned[k] in rows
      && Owned(rows, owner, owned[k].sequence) == owned[k + 1..]
      && (forall i :: 0 <= i <= k ==> owned[i].sequence <= owned[k].sequence)
  {
    var owned := Owned(rows, owner, after);
    OwnedContents(rows, owner, after);
    forall i | 0 <= i < |owned| ensures owned[i].ownerSub == owner && owned[i].sequence > after {
      assert owned[i] in owned;
    }
    OwnedAfterItem(owned, owner, k);
    OwnedTwice(rows, owner, after, owned[k].sequence);
  }

  // A page holds the first rows, and one extra row is read only to learn whether more remain.
  lemma PageIsPrefix(rows: seq<Version>, owner: string, after: nat, limit: nat)
    ensures var page, owned := PullPage(rows, owner, after, limit), Owned(rows, owner, after);
      var n := if |owned| <= limit then |owned| else limit;
      page == Page(owned[..n], if n == 0 then after else owned[n - 1].sequence, |owned| > limit)
  {
    var owned, versions := Owned(rows, owner, after), ListChanges(rows, owner, after, limit + 1);
    assert |owned| > limit ==> versions[..limit] == owned[..limit];
    assert |owned| <= limit ==> owned[..|owned|] == owned;
  }

  // One page and what remains after its cursor are together what the reader had left to see,
  // and there is more exactly when something remains.
  lemma PageSplits(rows: seq<Version>, owner: string, after: nat, limit: nat)
    requires Increasing(rows)
    ensures var page := PullPage(rows, owner, after, limit);
      && page.changes + Owned(rows, owner, page.cursor) == Owned(rows, owner, after)
      && page.cursor >= after
      && |page.changes| <= limit
      && (page.hasMore <==> Owned(rows, owner, page.cursor) != [])
      && (limit > 0 && page.hasMore ==> page.changes != [])
      && (forall v :: v in page.changes ==> v.sequence <= page.cursor)
      && (page.cursor == after || exists v :: v in rows && v.sequence == page.cursor)
  {
    var owned, page := Owned(rows, owner, after), PullPage(rows, owner, after, limit);
    PageIsPrefix(rows, owner, after, limit);
    var n := |page.changes|;
    if n > 0 {
      OwnedContinues(rows, owner, after, n - 1);
      assert owned[..n] + owned[n..] == owned;
    }
  }

  // A reader following cursors: the log it saw at each read, and the pages it got.
  datatype Traversal = Traversal(collected: seq<Version>, cursor: nat)

  function Follow(logs: seq<seq<Version>>, owner: string, start: nat, limit: nat): Traversal {
    if logs == [] then Traversal([], start) else
      var before := Follow(logs[..|logs| - 1], owner, start, limit);
      var page := PullPage(logs[|logs| - 1], owner, before.cursor, limit);
      Traversal(before.collected + page.changes, page.cursor)
  }

  // Each read sees the log of the read before it, possibly grown.
  ghost predicate Growing(logs: seq<seq<Version>>) {
    && (forall i :: 0 <= i < |logs| ==> Increasing(logs[i]))
    && (forall i, j :: 0 <= i < j < |logs| ==> logs[i] <= logs[j])
  }

  lemma {:induction false} CutoffIrrelevant(rows: seq<Version>, owner: string, a: nat, b: nat)
    requires forall v :: v in rows ==> v.sequence > a && v.sequence > b
    ensures Owned(rows, owner, a) == Owned(rows, owner, b)
  {
    if rows != [] {
      assert rows[|rows| - 1] in rows;
      assert forall v :: v in rows[..|rows| - 1] ==> v in rows;
      CutoffIrrelevant(rows[..|rows| - 1], owner, a, b);
    }
  }

  // What a traversal has collected, against the log of its latest read.
  ghost predicate GapFree(t: Traversal, log: seq<Version>, owner: string, start: nat) {
    && t.cursor >= start
    && t.collected + Owned(log, owner, t.cursor) == Owned(log, owner, start)
    && (forall v :: v in t.collected ==> v.sequence <= t.cursor)
    && (t.cursor == start || exists v :: v in log && v.sequence == t.cursor)
  }

  lemma LaterRowsAreAfter(prior: seq<Version>, log: seq<Version>, v: Version)
    requires prior <= log && Increasing(log) && v in prior
    ensures forall w :: w in log[|prior|..] ==> w.sequence > v.sequence
  {
    var i :| 0 <= i < |prior| && prior[i] == v;
    assert log[i] == v;
  }

  lemma GapFreeWhileGrowing(t: Traversal, prior: seq<Version>, log: seq<Version>, owner: string, start: nat)
    requires GapFree(t, prior, owner, start) && prior <= log && Increasing(log)
    ensures GapFree(t, log, owner, start)
  {
    var more := log[|prior|..];
    assert log == prior + more;
    OwnedGrows(prior, more, owner, start);
    OwnedGrows(prior, more, owner, t.cursor);
    if t.cursor != start {
      var v :| v in prior && v.sequence == t.cursor;
      LaterRowsAreAfter(prior, log, v);
      CutoffIrrelevant(more, owner, start, t.cursor);
      assert v in log;
    }
  }

  lemma GapFreeNextPage(t: Traversal, log: seq<Version>, owner: string, start: nat, limit: nat)
    requires GapFree(t, log, owner, start) && Increasing(log)
    ensures var page := PullPage(log, owner, t.cursor, limit);
      GapFree(Traversal(t.collected + page.changes, page.cursor), log, owner, start)
  {
    PageSplits(log, owner, t.cursor, limit);
  }

  lemma {:induction false} FollowIsGapFree(logs: seq<seq<Version>>, owner: string, start: nat, limit: nat)
    requires Growing(logs) && logs != []
    ensures GapFree(Follow(logs, owner, start, limit), logs[|logs| - 1], owner, start)
  {
    var n := |logs| - 1;
    var before := Follow(logs[..n], owner, start, limit);
    if n > 0 {
      FollowIsGapFree(logs[..n], owner, start, limit);
      assert logs[..n][n - 1] == logs[n - 1];
      GapFreeWhileGrowing(before, logs[n - 1], logs[n], owner, start);
    } else {
      assert [] + Owned(logs[n], owner, start) == Owned(logs[n], owner, start);
    }
    GapFreeNextPage(before, logs[n], owner, start, limit);
  }

  // While other writers append, the collected pages are, in order and with no gap or
  // duplicate, exactly the owner's rows between the start and the latest cursor.
  lemma PagingIsGapFree(logs: seq<seq<Version>>, owner: string, start: nat, limit: nat)
    requires Growing(logs) && logs != []
    ensures var t, log := Follow(logs, owner, start, limit), logs[|logs| - 1];
      && t.collected + Owned(log, owner, t.cursor) == Owned(log, owner, start)
      && Increasing(t.collected)
      && (forall v :: v in t.collected <==> v in log && v.ownerSub == owner && start < v.sequence <= t.cursor)
  {
    FollowIsGapFree(logs, owner, start, limit);
    var t, log := Follow(logs, owner, start, limit), logs[|logs| - 1];
    OwnedContents(log, owner, start);
    OwnedContents(log, owner, t.cursor);
    var owned := Owned(log, owner, start);
    assert t.collected == owned[..|t.collected|];
    assert forall v :: v in owned <==> v in t.collected || v in Owned(log, owner, t.cursor);
  }

  // A read that reports more brings the reader closer to the end, and one that does not is at it.
  lemma PageShortens(rows: seq<Version>, owner: string, after: nat, limit: nat)
    requires Increasing(rows) && limit >= 1
    ensures var page := PullPage(rows, owner, after, limit);
      if page.hasMore then |Owned(rows, owner, page.cursor)| < |Owned(rows, owner, after)| else Owned(rows, owner, page.cursor) == []
  {
    PageSplits(rows, owner, after, limit);
  }

  // On a log that no one extends, a traversal reaches the end after at most as many reads as
  // there were rows to see.
  lemma {:induction false} QuietTraversalEnds(logs: seq<seq<Version>>, rows: seq<Version>, owner: string, start: nat, limit: nat)
    requires Increasing(rows) && limit >= 1 && forall i :: 0 <= i < |logs| ==> logs[i] == rows
    ensures var left := |Owned(rows, owner, start)|;
      |Owned(rows, owner, Follow(logs, owner, start, limit).cursor)| <= if |logs| <= left then left - |logs| else 0
  {
    if logs != [] {
      var n := |logs| - 1;
      QuietTraversalEnds(logs[..n], rows, owner, start, limit);
      PageShortens(rows, owner, Follow(logs[..n], owner, start, limit).cursor, limit);
    }
  }
}
