// The client's local tables: synchronisation state, record rows and the outbox of edits.
module Drift {
  import opened Base
  import opened Json
  import opened SyncLog
  import opened Texts

  datatype AccountKey = AccountKey(issuer: string, subject: string)

  // A cursor the server issued, which the client only stores and sends back. Its text stands
  // for exactly one sequence (see Cursor.CursorRoundTrip).
  datatype Checkpoint = Checkpoint(sequence: nat)

  datatype Account = Account(key: AccountKey, deviceId: string, checkpoint: Option<Checkpoint>)

  datatype LocalRecord = LocalRecord(account: AccountKey, collection: string, recordId: string)

  datatype SyncRow = SyncRow(deviceId: string, checkpoint: Option<Checkpoint>, seeded: bool, active: bool, lastSyncedAt: Option<int>)

  datatype RecordRow = RecordRow(revision: string, deleted: bool, changeSequence: nat, updatedAt: int)

  datatype OutboxRow = OutboxRow(
    mutationId: string, account: AccountKey, deviceId: string, collection: string, recordId: string,
    baseRevision: Option<string>, operation: Operation, payload: Option<JsonObject>, createdAt: int, attemptCount: nat)

  datatype Draft = Draft(collection: string, recordId: string, operation: Operation, payload: Option<JsonObject>)

  // The random identifier and the time of a queued edit.
  datatype Stamp = Stamp(mutationId: string, createdAt: int)

  datatype Change = Change(sequence: nat, collection: string, recordId: string, revision: string, deleted: bool, createdAt: int)

  datatype ChangePage = ChangePage(items: seq<Change>, checkpoint: Checkpoint, nextPageToken: Option<Checkpoint>)

  datatype StoreError = AccountDeleted | UnknownCollection | InvalidLimit

  // The outbox is listed in the order in which pending edits are loaded.
  datatype Store = Store(
    syncState: map<AccountKey, SyncRow>,
    records: map<LocalRecord, RecordRow>,
    outbox: seq<OutboxRow>,
    deletedAccounts: set<AccountKey>)

  function RecordOfRow(row: OutboxRow): LocalRecord { LocalRecord(row.account, row.collection, row.recordId) }

  // ----- the order of pending edits: creation time, then identifier -----

  predicate Before(a: OutboxRow, b: OutboxRow) {
    a.createdAt < b.createdAt || (a.createdAt == b.createdAt && TextLess(a.mutationId, b.mutationId))
  }

  predicate Sorted(rows: seq<OutboxRow>) {
    |rows| <= 1 || (Sorted(rows[..|rows| - 1]) && Before(rows[|rows| - 2], rows[|rows| - 1]))
  }

  lemma {:induction false} SortedApart(rows: seq<OutboxRow>, i: nat, j: nat)
    requires Sorted(rows) && i < j < |rows|
    ensures Before(rows[i], rows[j])
  {
    var n := |rows| - 1;
    if j < n {
      SortedApart(rows[..n], i, j);
    } else if i < n - 1 {
      SortedApart(rows[..n], i, n - 1);
      if rows[i].createdAt == rows[n - 1].createdAt == rows[n].createdAt {
        TextTransitive(rows[i].mutationId, rows[n - 1].mutationId, rows[n].mutationId);
      }
    }
  }

  // ----- statements on the outbox -----

  // Which rows a deletion reaches.
  datatype Where = ById(mutationId: string) | ByIdOf(mutationId: string, account: AccountKey) | ByAccount(account: AccountKey)

  predicate Hits(clause: Where, row: OutboxRow) {
    match clause
    case ById(id) => row.mutationId == id
    case ByIdOf(id, account) => row.mutationId == id && row.account == account
    case ByAccount(account) => row.account == account
  }

  function Except(rows: seq<OutboxRow>, clause: Where): (rest: seq<OutboxRow>)
    ensures forall row :: row in rest <==> row in rows && !Hits(clause, row)
  {
    if rows == [] then [] else
      var n := |rows| - 1;
      var rest := Except(rows[..n], clause);
      assert forall row :: row in rows <==> row in rows[..n] || row == rows[n];
      if Hits(clause, rows[n]) then rest else rest + [rows[n]]
  }

  function Inserted(rows: seq<OutboxRow>, row: OutboxRow): (more: seq<OutboxRow>)
    ensures forall other :: other in more <==> other in rows || other == row
  {
    if rows == [] || Before(rows[|rows| - 1], row) then rows + [row] else
      var n := |rows| - 1;
      assert forall other :: other in rows <==> other in rows[..n] || other == rows[n];
      Inserted(rows[..n], row) + [rows[n]]
  }

  // The newest queued edit of a record.
  function Queued(rows: seq<OutboxRow>, record: LocalRecord): (found: Option<OutboxRow>)
    ensures found.Some? ==> found.value in rows && RecordOfRow(found.value) == record
    ensures found.None? ==> forall row :: row in rows ==> RecordOfRow(row) != record
  {
    if rows == [] then None else
      var n := |rows| - 1;
      assert forall row :: row in rows <==> row in rows[..n] || row == rows[n];
      if RecordOfRow(rows[n]) == record then Some(rows[n]) else Queued(rows[..n], record)
  }

  // The outbox without what was queued for a record.
  function WithoutQueued(rows: seq<OutboxRow>, record: LocalRecord): seq<OutboxRow> {
    var existing := Queued(rows, record);
    if existing.Some? then Except(rows, ById(existing.value.mutationId)) else rows
  }

  function OfAccount(rows: seq<OutboxRow>, account: AccountKey): (mine: seq<OutboxRow>)
    ensures forall row :: row in mine <==> row in rows && row.account == account
  {
    if rows == [] then [] else
      var n := |rows| - 1;
      var before := OfAccount(rows[..n], account);
      assert forall row :: row in rows <==> row in rows[..n] || row == rows[n];
      if rows[n].account == account then before + [rows[n]] else before
  }

  // ----- what the operations do to the tables -----

  // The row to queue: its base is that of the edit it replaces, or else the synchronised revision.
  function NewEdit(s: Store, account: Account, draft: Draft, stamp: Stamp): OutboxRow {
    var record := LocalRecord(account.key, draft.collection, draft.recordId);
    var existing := Queued(s.outbox, record);
    var synced := if record in s.records then Some(s.records[record].revision) else None;
    var base := if existing.Some? && existing.value.baseRevision.Some? then existing.value.baseRevision else synced;
    OutboxRow(stamp.mutationId, account.key, account.deviceId, draft.collection, draft.recordId,
              base, draft.operation, draft.payload, stamp.createdAt, 0)
  }

  function Enqueue(s: Store, account: Account, draft: Draft, stamp: Stamp): Store {
    var rest := WithoutQueued(s.outbox, LocalRecord(account.key, draft.collection, draft.recordId));
    s.(outbox := Inserted(rest, NewEdit(s, account, draft, stamp)))
  }

  function EnqueueAll(s: Store, account: Account, drafts: seq<Draft>, stamps: seq<Stamp>): Store
    requires |drafts| == |stamps|
  {
    if drafts == [] then s else
      var n := |drafts| - 1;
      Enqueue(EnqueueAll(s, account, drafts[..n], stamps[..n]), account, drafts[n], stamps[n])
  }

  predicate Known(adapters: set<string>, drafts: seq<Draft>) {
    forall i | 0 <= i < |drafts| :: drafts[i].collection in adapters
  }

  // An edit and its queueing are one transaction, refused for a deleted account.
  function Committed(s: Store, adapters: set<string>, account: Option<Account>, drafts: seq<Draft>, stamps: seq<Stamp>): Result<Store, StoreError>
    requires |drafts| == |stamps|
  {
    if account.None? then Success(s)
    else if account.value.key in s.deletedAccounts then Failure(AccountDeleted)
    else if !Known(adapters, drafts) then Failure(UnknownCollection)
    else Success(EnqueueAll(s, account.value, drafts, stamps))
  }

  function Acknowledged(s: Store, account: AccountKey, mutationIds: seq<string>): Store {
    if mutationIds == [] then s else
      var n := |mutationIds| - 1;
      var before := Acknowledged(s, account, mutationIds[..n]);
      before.(outbox := Except(before.outbox, ByIdOf(mutationIds[n], account)))
  }

  function RowOf(change: Change): RecordRow { RecordRow(change.revision, change.deleted, change.sequence, change.createdAt) }

  // Records after applying changes in order.
  function Upserted(records: map<LocalRecord, RecordRow>, account: AccountKey, items: seq<Change>): map<LocalRecord, RecordRow> {
    if items == [] then records else
      var n := |items| - 1;
      Upserted(records, account, items[..n])[LocalRecord(account, items[n].collection, items[n].recordId) := RowOf(items[n])]
  }

  predicate Applicable(adapters: set<string>, items: seq<Change>) {
    forall i | 0 <= i < |items| :: items[i].collection in adapters
  }

  // A page and its checkpoint are one transaction; an unknown collection aborts it.
  function Applied(s: Store, adapters: set<string>, account: AccountKey, page: ChangePage, now: int): Result<Store, StoreError> {
    if !Applicable(adapters, page.items) then Failure(UnknownCollection) else
      Success(s.(
        records := Upserted(s.records, account, page.items),
        syncState := if account !in s.syncState then s.syncState else
          s.syncState[account := s.syncState[account].(checkpoint := Some(page.checkpoint), lastSyncedAt := Some(now))]))
  }

  // Another account is the active one.
  predicate Switches(s: Store, account: AccountKey) {
    exists key | key in s.syncState.Keys :: s.syncState[key].active && key != account
  }

  // The account becomes the only active one; after a switch it pulls from the start again.
  function Saved(s: Store, account: Account): Store {
    var existing := if account.key in s.syncState then Some(s.syncState[account.key]) else None;
    var checkpoint := if Switches(s, account.key) || existing.None? then None else existing.value.checkpoint;
    var row := SyncRow(account.deviceId, checkpoint, existing.Some? && existing.value.seeded, true,
                       if existing.Some? then existing.value.lastSyncedAt else None);
    s.(syncState := (map key | key in s.syncState :: s.syncState[key].(active := false))[account.key := row])
  }

  predicate IsSeeded(s: Store, account: AccountKey) { account in s.syncState && s.syncState[account].seeded }

  // The transaction that queues the seeds and marks the account.
  function Seeded(s: Store, account: Account, drafts: seq<Draft>, stamps: seq<Stamp>): Store
    requires |drafts| == |stamps|
  {
    var queued := EnqueueAll(s, account, drafts, stamps);
    queued.(syncState := if account.key !in s.syncState then s.syncState else
      s.syncState[account.key := s.syncState[account.key].(seeded := true)])
  }

  function Pending(s: Store, account: AccountKey, limit: int): Result<seq<OutboxRow>, StoreError> {
    if limit < 1 then Failure(InvalidLimit) else
      var mine := OfAccount(s.outbox, account);
      Success(if |mine| <= limit then mine else mine[..limit])
  }

  function Retried(row: OutboxRow, account: AccountKey): OutboxRow {
    if row.account == account then row.(attemptCount := row.attemptCount + 1) else row
  }

  function FailureRecorded(s: Store, account: AccountKey): Store {
    s.(outbox := seq(|s.outbox|, i requires 0 <= i < |s.outbox| => Retried(s.outbox[i], account)))
  }

  function Forgotten(s: Store, account: AccountKey): Store {
    Store(
      map key | key in s.syncState && key != account :: s.syncState[key],
      map record | record in s.records && record.account != account :: s.records[record],
      Except(s.outbox, ByAccount(account)),
      s.deletedAccounts + {account})
  }

  // ----- the outbox invariant -----

  ghost predicate UniqueIds(rows: seq<OutboxRow>) {
    forall a, b :: a in rows && b in rows && a.mutationId == b.mutationId ==> a == b
  }

  ghost predicate OnePerRecord(rows: seq<OutboxRow>) {
    forall a, b :: a in rows && b in rows && RecordOfRow(a) == RecordOfRow(b) ==> a == b
  }

  ghost predicate OutboxOk(rows: seq<OutboxRow>) { Sorted(rows) && UniqueIds(rows) && OnePerRecord(rows) }

  ghost predicate FreshId(rows: seq<OutboxRow>, id: string) { forall row :: row in rows ==> row.mutationId != id }

  lemma {:induction false} ExceptSorted(rows: seq<OutboxRow>, clause: Where)
    requires Sorted(rows)
    ensures Sorted(Except(rows, clause))
  {
    if rows != [] {
      var n := |rows| - 1;
      var rest := Except(rows[..n], clause);
      ExceptSorted(rows[..n], clause);
      if !Hits(clause, rows[n]) && rest != [] {
        SortedAppend(rows, rest);
      }
    }
  }

  // Rows listed before the last one are before it.
  lemma LastIsBefore(rows: seq<OutboxRow>, earlier: seq<OutboxRow>)
    requires Sorted(rows) && rows != [] && earlier != [] && earlier[|earlier| - 1] in rows[..|rows| - 1]
    ensures Before(earlier[|earlier| - 1], rows[|rows| - 1])
  {
    var i :| 0 <= i < |rows| - 1 && rows[..|rows| - 1][i] == earlier[|earlier| - 1];
    SortedApart(rows, i, |rows| - 1);
  }

  // A sorted part of the earlier rows, with the last row after it, is sorted.
  lemma SortedAppend(rows: seq<OutboxRow>, earlier: seq<OutboxRow>)
    requires Sorted(rows) && rows != [] && Sorted(earlier) && earlier != []
    requires earlier[|earlier| - 1] in rows[..|rows| - 1]
    ensures Sorted(earlier + [rows[|rows| - 1]])
  {
    LastIsBefore(rows, earlier);
    assert (earlier + [rows[|rows| - 1]])[..|earlier|] == earlier;
  }

  lemma SortedThen(rows: seq<OutboxRow>, row: OutboxRow)
    requires Sorted(rows) && (rows == [] || Before(rows[|rows| - 1], row))
    ensures Sorted(rows + [row])
  {
    assert (rows + [row])[..|rows|] == rows;
  }

  // Whichever row comes last after an insertion before the last row, it is before that row.
  lemma LastInsertedIsBefore(rows: seq<OutboxRow>, row: OutboxRow, before: seq<OutboxRow>)
    requires Sorted(rows) && rows != [] && FreshId(rows, row.mutationId) && !Before(rows[|rows| - 1], row)
    requires before != [] && (before[|before| - 1] == row || before[|before| - 1] in rows[..|rows| - 1])
    ensures Before(before[|before| - 1], rows[|rows| - 1])
  {
    if before[|before| - 1] == row {
      assert rows[|rows| - 1] in rows;
      TextTotal(row.mutationId, rows[|rows| - 1].mutationId);
    } else {
      LastIsBefore(rows, before);
    }
  }

  lemma {:induction false} InsertedSorted(rows: seq<OutboxRow>, row: OutboxRow)
    requires Sorted(rows) && FreshId(rows, row.mutationId)
    ensures Sorted(Inserted(rows, row))
  {
    if rows == [] || Before(rows[|rows| - 1], row) {
      SortedThen(rows, row);
    } else {
      var n := |rows| - 1;
      var before := Inserted(rows[..n], row);
      InsertedSorted(rows[..n], row);
      assert row in before && before[|before| - 1] in before;
      LastInsertedIsBefore(rows, row, before);
      SortedThen(before, rows[n]);
    }
  }

  lemma WithoutQueuedRows(rows: seq<OutboxRow>, record: LocalRecord)
    requires OutboxOk(rows)
    ensures OutboxOk(WithoutQueued(rows, record))
    ensures forall row :: row in WithoutQueued(rows, record) <==> row in rows && RecordOfRow(row) != record
  {
    var existing := Queued(rows, record);
    if existing.Some? {
      ExceptSorted(rows, ById(existing.value.mutationId));
    }
  }

  // The base of a new edit of a record: that of the queued edit it replaces, if that has one,
  // and otherwise the synchronised revision.
  ghost predicate IsBase(s: Store, record: LocalRecord, base: Option<string>) {
    && (forall row :: row in s.outbox && RecordOfRow(row) == record && row.baseRevision.Some? ==> base == row.baseRevision)
    && ((forall row :: row in s.outbox && RecordOfRow(row) == record ==> row.baseRevision.None?) ==>
          base == if record in s.records then Some(s.records[record].revision) else None)
  }

  // A fresh outbox row for the draft.
  ghost predicate IsEditOf(s: Store, row: OutboxRow, account: Account, draft: Draft, stamp: Stamp) {
    && RecordOfRow(row) == LocalRecord(account.key, draft.collection, draft.recordId) && row.deviceId == account.deviceId
    && row.operation == draft.operation && row.payload == draft.payload
    && row.mutationId == stamp.mutationId && row.createdAt == stamp.createdAt && row.attemptCount == 0
    && IsBase(s, RecordOfRow(row), row.baseRevision)
  }

  // The edit takes the place of whatever was queued for its record, and nothing else changes.
  ghost predicate Queues(before: Store, after: Store, account: Account, draft: Draft, stamp: Stamp) {
    && after == before.(outbox := after.outbox) && OutboxOk(after.outbox)
    && (exists edit :: edit in after.outbox && IsEditOf(before, edit, account, draft, stamp))
    && (forall row :: RecordOfRow(row) != LocalRecord(account.key, draft.collection, draft.recordId) ==>
          (row in after.outbox <==> row in before.outbox))
  }

  lemma NewEditIsEdit(s: Store, account: Account, draft: Draft, stamp: Stamp)
    requires OnePerRecord(s.outbox)
    ensures IsEditOf(s, NewEdit(s, account, draft, stamp), account, draft, stamp)
  {
  }

  // Queueing an edit replaces whatever was queued for its record and touches nothing else.
  lemma EnqueueReplaces(s: Store, account: Account, draft: Draft, stamp: Stamp)
    requires OutboxOk(s.outbox) && FreshId(s.outbox, stamp.mutationId)
    ensures var after, edit := Enqueue(s, account, draft, stamp), NewEdit(s, account, draft, stamp);
      && OutboxOk(after.outbox)
      && (forall row :: row in after.outbox <==> row == edit || (row in s.outbox && RecordOfRow(row) != RecordOfRow(edit)))
  {
    var record := LocalRecord(account.key, draft.collection, draft.recordId);
    WithoutQueuedRows(s.outbox, record);
    InsertedSorted(WithoutQueued(s.outbox, record), NewEdit(s, account, draft, stamp));
  }

  // The edit carries its draft, and the base of the edit it replaces or else the synchronised
  // revision.
  lemma EnqueueQueues(s: Store, account: Account, draft: Draft, stamp: Stamp)
    requires OutboxOk(s.outbox) && FreshId(s.outbox, stamp.mutationId)
    ensures Queues(s, Enqueue(s, account, draft, stamp), account, draft, stamp)
  {
    EnqueueReplaces(s, account, draft, stamp);
    NewEditIsEdit(s, account, draft, stamp);
    assert NewEdit(s, account, draft, stamp) in Enqueue(s, account, draft, stamp).outbox;
  }

  // Coalescing keeps the base the first unsent edit was made on.
  lemma CoalescingKeepsBase(s: Store, account: Account, draft: Draft, stamp: Stamp, queued: OutboxRow)
    requires OutboxOk(s.outbox) && queued in s.outbox && queued.baseRevision.Some?
    requires RecordOfRow(queued) == LocalRecord(account.key, draft.collection, draft.recordId)
    ensures NewEdit(s, account, draft, stamp).baseRevision == queued.baseRevision
  {
    assert Queued(s.outbox, RecordOfRow(queued)).value == queued;
  }

  // Every statement on the outbox keeps it sorted, with unique identifiers and at most one
  // edit per record.
  lemma ExceptKeepsOutbox(rows: seq<OutboxRow>, clause: Where)
    requires OutboxOk(rows)
    ensures OutboxOk(Except(rows, clause))
  {
    ExceptSorted(rows, clause);
  }

  lemma {:induction false} AcknowledgedRemoves(s: Store, account: AccountKey, mutationIds: seq<string>)
    ensures var after := Acknowledged(s, account, mutationIds);
      && after == s.(outbox := after.outbox)
      && (forall row :: row in after.outbox <==> row in s.outbox && !(row.account == account && row.mutationId in mutationIds))
      && (OutboxOk(s.outbox) ==> OutboxOk(after.outbox))
  {
    if mutationIds != [] {
      var n := |mutationIds| - 1;
      AcknowledgedRemoves(s, account, mutationIds[..n]);
      assert forall id :: id in mutationIds <==> id in mutationIds[..n] || id == mutationIds[n];
      if OutboxOk(s.outbox) {
        ExceptKeepsOutbox(Acknowledged(s, account, mutationIds[..n]).outbox, ByIdOf(mutationIds[n], account));
      }
    }
  }

  lemma {:induction false} FailureKeepsSorted(s: Store, account: AccountKey, n: nat)
    requires n <= |s.outbox| && Sorted(s.outbox[..n])
    ensures Sorted(FailureRecorded(s, account).outbox[..n])
  {
    var after := FailureRecorded(s, account).outbox;
    if n > 1 {
      assert s.outbox[..n][..n - 1] == s.outbox[..n - 1] && after[..n][..n - 1] == after[..n - 1];
      FailureKeepsSorted(s, account, n - 1);
    }
  }

  lemma RetriedRow(s: Store, account: AccountKey, row: OutboxRow) returns (was: OutboxRow)
    requires row in FailureRecorded(s, account).outbox
    ensures was in s.outbox && row == Retried(was, account)
  {
    var i :| 0 <= i < |s.outbox| && FailureRecorded(s, account).outbox[i] == row;
    was := s.outbox[i];
  }

  lemma RetriedPair(s: Store, account: AccountKey, a: OutboxRow, b: OutboxRow)
    requires OutboxOk(s.outbox) && a in FailureRecorded(s, account).outbox && b in FailureRecorded(s, account).outbox
    ensures a.mutationId == b.mutationId || RecordOfRow(a) == RecordOfRow(b) ==> a == b
  {
    var x := RetriedRow(s, account, a);
    var y := RetriedRow(s, account, b);
  }

  // Recording a failure changes only the attempt counters of the account's edits, each by one.
  lemma FailureKeepsOutbox(s: Store, account: AccountKey)
    requires OutboxOk(s.outbox)
    ensures var after := FailureRecorded(s, account);
      && OutboxOk(after.outbox) && after == s.(outbox := after.outbox) && |after.outbox| == |s.outbox|
      && forall i :: 0 <= i < |s.outbox| ==>
           && after.outbox[i] == s.outbox[i].(attemptCount := after.outbox[i].attemptCount)
           && after.outbox[i].attemptCount - s.outbox[i].attemptCount == (if s.outbox[i].account == account then 1 else 0)
  {
    var after := FailureRecorded(s, account).outbox;
    assert s.outbox[..|s.outbox|] == s.outbox && after[..|after|] == after;
    FailureKeepsSorted(s, account, |after|);
    forall a, b | a in after && b in after
      ensures a.mutationId == b.mutationId || RecordOfRow(a) == RecordOfRow(b) ==> a == b
    {
      RetriedPair(s, account, a, b);
    }
  }

  // ----- what the other operations mean -----

  ghost predicate OneActive(s: Store) {
    forall a, b :: a in s.syncState && b in s.syncState && s.syncState[a].active && s.syncState[b].active ==> a == b
  }

  // The account is the only active one. It starts from the beginning exactly if it is new or
  // another account was active; every other account keeps everything but being active.
  ghost predicate MadeActive(before: Store, after: Store, account: Account) {
    && after == before.(syncState := after.syncState)
    && account.key in after.syncState && after.syncState[account.key].active && after.syncState[account.key].deviceId == account.deviceId
    && (forall key :: key != account.key ==> (key in after.syncState <==> key in before.syncState))
    && (forall key :: key in before.syncState && key != account.key ==>
          after.syncState[key] == before.syncState[key].(active := false))
    && after.syncState[account.key].seeded == (account.key in before.syncState && before.syncState[account.key].seeded)
    && after.syncState[account.key].lastSyncedAt == (if account.key in before.syncState then before.syncState[account.key].lastSyncedAt else None)
    && (forall other :: other in before.syncState && before.syncState[other].active && other != account.key ==>
          after.syncState[account.key].checkpoint == None)
    && ((forall other :: other in before.syncState && before.syncState[other].active ==> other == account.key) ==>
          after.syncState[account.key].checkpoint == if account.key in before.syncState then before.syncState[account.key].checkpoint else None)
  }

  lemma SavedIsOnlyActive(s: Store, account: Account)
    ensures MadeActive(s, Saved(s, account), account) && OneActive(Saved(s, account))
  {
  }

  // The pending edits are the account's oldest: whatever is left out comes after all of them.
  lemma {:induction false} OfAccountSorted(rows: seq<OutboxRow>, account: AccountKey)
    requires Sorted(rows)
    ensures Sorted(OfAccount(rows, account))
  {
    if rows != [] {
      var n := |rows| - 1;
      var before := OfAccount(rows[..n], account);
      OfAccountSorted(rows[..n], account);
      if rows[n].account == account && before != [] {
        SortedAppend(rows, before);
      }
    }
  }

  // The rows are the account's oldest queued edits in their order: all of them, or as many as
  // the limit allows and any left out comes after them.
  ghost predicate AreOldest(rows: seq<OutboxRow>, outbox: seq<OutboxRow>, account: AccountKey, limit: int) {
    && Sorted(rows) && |rows| <= limit
    && (forall row :: row in rows ==> row in outbox && row.account == account)
    && (forall row :: row in outbox && row.account == account && row !in rows ==> AllBefore(rows, row))
    && (|rows| < limit ==> forall row :: row in outbox && row.account == account ==> row in rows)
  }

  ghost predicate AllBefore(rows: seq<OutboxRow>, row: OutboxRow) { forall i :: 0 <= i < |rows| ==> Before(rows[i], row) }

  lemma PrefixSorted(rows: seq<OutboxRow>, n: nat)
    requires Sorted(rows) && n <= |rows|
    ensures Sorted(rows[..n])
    decreases |rows| - n
  {
    if n < |rows| {
      PrefixSorted(rows, n + 1);
      assert rows[..n + 1][..n] == rows[..n];
    } else {
      assert rows[..n] == rows;
    }
  }

  lemma EarlierAreBefore(mine: seq<OutboxRow>, n: nat, j: nat)
    requires Sorted(mine) && n <= j < |mine|
    ensures AllBefore(mine[..n], mine[j])
  {
    forall i | 0 <= i < n ensures Before(mine[i], mine[j]) {
      SortedApart(mine, i, j);
    }
  }

  lemma LeftOutIsLater(mine: seq<OutboxRow>, n: nat, left: OutboxRow)
    requires Sorted(mine) && n <= |mine| && left in mine && left !in mine[..n]
    ensures AllBefore(mine[..n], left)
  {
    var j := LeftOutAt(mine, n, left);
    EarlierAreBefore(mine, n, j);
  }

  lemma LeftOutAt(mine: seq<OutboxRow>, n: nat, left: OutboxRow) returns (j: nat)
    requires n <= |mine| && left in mine && left !in mine[..n]
    ensures n <= j < |mine| && mine[j] == left
  {
    assert mine == mine[..n] + mine[n..];
    var k :| 0 <= k < |mine| - n && mine[n..][k] == left;
    j := n + k;
  }

  lemma OldestPrefix(outbox: seq<OutboxRow>, account: AccountKey, n: nat, limit: nat)
    requires Sorted(outbox) && n <= limit && n <= |OfAccount(outbox, account)|
    requires n == limit || n == |OfAccount(outbox, account)|
    ensures AreOldest(OfAccount(outbox, account)[..n], outbox, account, limit)
  {
    var mine := OfAccount(outbox, account);
    OfAccountSorted(outbox, account);
    PrefixSorted(mine, n);
    assert n < limit ==> mine[..n] == mine;
    forall row | row in outbox && row.account == account && row !in mine[..n] ensures AllBefore(mine[..n], row) {
      LeftOutIsLater(mine, n, row);
    }
  }

  lemma PendingAreOldest(s: Store, account: AccountKey, limit: int)
    requires Sorted(s.outbox) && limit >= 1
    ensures AreOldest(Pending(s, account, limit).value, s.outbox, account, limit)
  {
    var mine := OfAccount(s.outbox, account);
    var n := if |mine| <= limit then |mine| else limit;
    OldestPrefix(s.outbox, account, n, limit);
    assert Pending(s, account, limit).value == mine[..n];
  }

  // The account is remembered as deleted and nothing of it is left in any table; the other
  // accounts keep every row as it was.
  ghost predicate Erased(before: Store, after: Store, account: AccountKey) {
    && after.deletedAccounts == before.deletedAccounts + {account}
    && (forall key :: key in after.syncState <==> key in before.syncState && key != account)
    && (forall key :: key in after.syncState ==> after.syncState[key] == before.syncState[key])
    && (forall record :: record in after.records <==> record in before.records && record.account != account)
    && (forall record :: record in after.records ==> after.records[record] == before.records[record])
    && (forall row :: row in after.outbox <==> row in before.outbox && row.account != account)
    && (OutboxOk(before.outbox) ==> OutboxOk(after.outbox))
  }

  // A deleted account leaves nothing behind, the other accounts keep everything, and from then
  // on its edits are refused.
  lemma ForgottenIsGone(s: Store, account: Account, adapters: set<string>, drafts: seq<Draft>, stamps: seq<Stamp>)
    requires |drafts| == |stamps|
    ensures Erased(s, Forgotten(s, account.key), account.key)
    ensures Committed(Forgotten(s, account.key), adapters, Some(account), drafts, stamps) == Failure(AccountDeleted)
  {
    if OutboxOk(s.outbox) {
      ExceptKeepsOutbox(s.outbox, ByAccount(account.key));
    }
  }
}
