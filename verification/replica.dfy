// What a client's record rows say about the server's log, up to its checkpoint.
module Replica {
  import opened Base
  import opened SyncLog
  import opened Drift

  function ToChange(v: Version): Change { Change(v.sequence, v.collection, v.recordId, v.revision, v.deleted, v.createdAt) }

  function Changes(rows: seq<Version>): (items: seq<Change>)
    ensures |items| == |rows|
  {
    seq(|rows|, i requires 0 <= i < |rows| => ToChange(rows[i]))
  }

  // The page as the HTTP response carries it.
  function Response(page: Page): ChangePage {
    ChangePage(Changes(page.changes), Checkpoint(page.cursor), if page.hasMore then Some(Checkpoint(page.cursor)) else None)
  }

  function Position(checkpoint: Option<Checkpoint>): nat {
    match checkpoint
    case None => 0
    case Some(c) => c.sequence
  }

  // The record on the server; the account's storage key is its owner.
  function OnServer(record: LocalRecord): RecordKey { RecordKey(record.account.subject, record.collection, record.recordId) }

  function LocalOf(account: AccountKey, v: Version): LocalRecord { LocalRecord(account, v.collection, v.recordId) }

  // The last version of a record at or before a position.
  function LastUpTo(log: Log, key: RecordKey, position: nat): (last: Option<Version>)
    ensures last.Some? ==> last.value in log && RecordOf(last.value) == key && last.value.sequence <= position
  {
    if log == [] then None else
      var n := |log| - 1;
      if RecordOf(log[n]) == key && log[n].sequence <= position then Some(log[n]) else LastUpTo(log[..n], key, position)
  }

  // An owner's versions after one position and up to another, in order.
  function Window(log: Log, owner: string, after: nat, upTo: nat): seq<Version> {
    if log == [] then [] else
      var n := |log| - 1;
      var before := Window(log[..n], owner, after, upTo);
      if log[n].ownerSub == owner && after < log[n].sequence <= upTo then before + [log[n]] else before
  }

  lemma {:induction false} WindowThenRest(log: Log, owner: string, after: nat, upTo: nat)
    requires Increasing(log) && after <= upTo
    ensures Owned(log, owner, after) == Window(log, owner, after, upTo) + Owned(log, owner, upTo)
  {
    if log != [] {
      var n := |log| - 1;
      WindowThenRest(log[..n], owner, after, upTo);
      if log[n].sequence <= upTo {
        NoneAfterLast(log[..n], owner, upTo);
      }
    }
  }

  // A page is exactly the window between the reader's position and its cursor.
  lemma PageIsWindow(log: Log, owner: string, after: nat, limit: nat)
    requires Increasing(log)
    ensures var page := PullPage(log, owner, after, limit);
      page.cursor >= after && page.changes == Window(log, owner, after, page.cursor)
  {
    PageSplits(log, owner, after, limit);
    var page := PullPage(log, owner, after, limit);
    WindowThenRest(log, owner, after, page.cursor);
    SamePrefix(page.changes, Window(log, owner, after, page.cursor), Owned(log, owner, page.cursor));
  }

  lemma SamePrefix<T>(a: seq<T>, b: seq<T>, rest: seq<T>)
    requires a + rest == b + rest
    ensures a == b
  {
    assert |a + rest| == |b + rest|;
    assert a == (a + rest)[..|a|] && b == (b + rest)[..|a|];
  }

  function RowAt(records: map<LocalRecord, RecordRow>, record: LocalRecord): Option<RecordRow> {
    if record in records then Some(records[record]) else None
  }

  lemma {:induction false} NoneInWindow(log: Log, owner: string, after: nat, upTo: nat)
    requires forall i :: 0 <= i < |log| ==> log[i].sequence <= after
    ensures Window(log, owner, after, upTo) == []
  {
    if log != [] {
      NoneInWindow(log[..|log| - 1], owner, after, upTo);
    }
  }

  lemma UpsertedOne(records: map<LocalRecord, RecordRow>, account: AccountKey, window: seq<Version>, v: Version)
    ensures Upserted(records, account, Changes(window + [v]))
         == Upserted(records, account, Changes(window))[LocalOf(account, v) := RowOf(ToChange(v))]
  {
    assert Changes(window + [v])[..|window|] == Changes(window);
  }

  // Applying a window leaves in each row the window's last version of that record, and the
  // other rows as they were.
  lemma {:induction false} UpsertedWindow(log: Log, records: map<LocalRecord, RecordRow>, record: LocalRecord, after: nat, upTo: nat)
    requires after <= upTo && Increasing(log)
    ensures var last := LastUpTo(log, OnServer(record), upTo);
      RowAt(Upserted(records, record.account, Changes(Window(log, record.account.subject, after, upTo))), record)
      == if last.Some? && last.value.sequence > after then Some(RowOf(ToChange(last.value))) else RowAt(records, record)
  {
    if log == [] {
      assert Changes([]) == [];
    } else {
      var n := |log| - 1;
      UpsertedWindow(log[..n], records, record, after, upTo);
      var before := Window(log[..n], record.account.subject, after, upTo);
      UpsertedOne(records, record.account, before, log[n]);
      if log[n].sequence <= after {
        NoneInWindow(log[..n], record.account.subject, after, upTo);
        assert Changes([]) == [];
      }
    }
  }

  // ----- the replica invariant -----

  // Each record with a version at or before the position has exactly the row of its last such version.
  ghost predicate Reflects(records: map<LocalRecord, RecordRow>, log: Log, account: AccountKey, position: nat) {
    forall record: LocalRecord :: record.account == account && LastUpTo(log, OnServer(record), position).Some? ==>
      RowAt(records, record) == Some(RowOf(ToChange(LastUpTo(log, OnServer(record), position).value)))
  }

  lemma {:induction false} LastUpToEarlier(log: Log, key: RecordKey, earlier: nat, later: nat)
    requires earlier <= later
    requires LastUpTo(log, key, later).Some? && LastUpTo(log, key, later).value.sequence <= earlier
    ensures LastUpTo(log, key, earlier) == LastUpTo(log, key, later)
  {
    var n := |log| - 1;
    if !(RecordOf(log[n]) == key && log[n].sequence <= later) {
      LastUpToEarlier(log[..n], key, earlier, later);
    }
  }

  // A page applied where the client stood moves the invariant to the page's cursor.
  lemma PageMovesReplica(records: map<LocalRecord, RecordRow>, log: Log, account: AccountKey, after: nat, upTo: nat)
    requires Increasing(log) && after <= upTo && Reflects(records, log, account, after)
    ensures Reflects(Upserted(records, account, Changes(Window(log, account.subject, after, upTo))), log, account, upTo)
  {
    forall record: LocalRecord | record.account == account && LastUpTo(log, OnServer(record), upTo).Some?
      ensures RowAt(Upserted(records, account, Changes(Window(log, account.subject, after, upTo))), record)
           == Some(RowOf(ToChange(LastUpTo(log, OnServer(record), upTo).value)))
    {
      UpsertedWindow(log, records, record, after, upTo);
      if LastUpTo(log, OnServer(record), upTo).value.sequence <= after {
        LastUpToEarlier(log, OnServer(record), after, upTo);
      }
    }
  }

  lemma LastUpToAppend(log: Log, v: Version, key: RecordKey, position: nat)
    requires v.sequence > position
    ensures LastUpTo(log + [v], key, position) == LastUpTo(log, key, position)
  {
    assert (log + [v])[..|log|] == log;
  }

  lemma WindowAppend(log: Log, v: Version, owner: string, after: nat, upTo: nat)
    requires v.sequence > upTo
    ensures Window(log + [v], owner, after, upTo) == Window(log, owner, after, upTo)
  {
    assert (log + [v])[..|log|] == log;
  }

  // New versions do not disturb what a client reflects.
  lemma ReflectsAppend(records: map<LocalRecord, RecordRow>, log: Log, v: Version, account: AccountKey, position: nat)
    requires Reflects(records, log, account, position) && v.sequence > position
    ensures Reflects(records, log + [v], account, position)
  {
    forall record: LocalRecord | record.account == account && LastUpTo(log + [v], OnServer(record), position).Some?
      ensures RowAt(records, record) == Some(RowOf(ToChange(LastUpTo(log + [v], OnServer(record), position).value)))
    {
      LastUpToAppend(log, v, OnServer(record), position);
    }
  }

  // ----- rows come from the log -----

  ghost predicate IsVersionRow(log: Log, record: LocalRecord, row: RecordRow) {
    exists v :: v in log && RecordOf(v) == OnServer(record) && row == RowOf(ToChange(v))
  }

  ghost predicate RowsFromLog(records: map<LocalRecord, RecordRow>, log: Log) {
    forall record :: record in records ==> IsVersionRow(log, record, records[record])
  }

  lemma UpsertedFromLog(log: Log, records: map<LocalRecord, RecordRow>, account: AccountKey, after: nat, upTo: nat)
    requires RowsFromLog(records, log) && Increasing(log) && after <= upTo
    ensures RowsFromLog(Upserted(records, account, Changes(Window(log, account.subject, after, upTo))), log)
  {
    var window := Window(log, account.subject, after, upTo);
    var updated := Upserted(records, account, Changes(window));
    forall record | record in updated ensures IsVersionRow(log, record, updated[record]) {
      if record.account == account {
        UpsertedWindow(log, records, record, after, upTo);
      } else {
        UpsertedElsewhere(records, account, Changes(window), record);
      }
    }
  }

  lemma {:induction false} UpsertedElsewhere(records: map<LocalRecord, RecordRow>, account: AccountKey, items: seq<Change>, record: LocalRecord)
    requires record.account != account
    ensures RowAt(Upserted(records, account, items), record) == RowAt(records, record)
  {
    if items != [] {
      UpsertedElsewhere(records, account, items[..|items| - 1], record);
    }
  }

  // ----- convergence -----

  lemma {:induction false} EndHasEverything(log: Log, key: RecordKey, position: nat)
    requires forall v :: v in log && v.ownerSub == key.ownerSub ==> v.sequence <= position
    ensures LastUpTo(log, key, position) == GetCurrent(log, key)
    ensures (exists v :: v in log && RecordOf(v) == key) ==> LastUpTo(log, key, position).Some?
  {
    if log != [] {
      var n := |log| - 1;
      assert log[n] in log && forall v :: v in log[..n] ==> v in log;
      EndHasEverything(log[..n], key, position);
      assert forall v :: v in log ==> v in log[..n] || v == log[n];
    }
  }

  // The row of a record's last version.
  function CurrentRow(log: Log, record: LocalRecord): Option<RecordRow> {
    match GetCurrent(log, OnServer(record))
    case Some(v) => Some(RowOf(ToChange(v)))
    case None => None
  }

  // A client that has pulled everything of its owner holds exactly the rows of the last
  // versions; it has no row for a record without a version.
  lemma FullyPulledRow(records: map<LocalRecord, RecordRow>, log: Log, record: LocalRecord, position: nat)
    requires Reflects(records, log, record.account, position) && RowsFromLog(records, log)
    requires forall v :: v in log && v.ownerSub == record.account.subject ==> v.sequence <= position
    ensures RowAt(records, record) == CurrentRow(log, record)
  {
    EndHasEverything(log, OnServer(record), position);
  }
}
