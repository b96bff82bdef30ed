// What every run of clients and server keeps: edits are delivered exactly once, none is
// lost, and each client's rows reflect the log up to its checkpoint.
module SyncDelivery {
  import opened Base
  import opened SyncLog
  import opened Drift
  import opened Replica
  import opened SyncSystem

  // ----- the invariant -----

  // The server has accepted exactly this edit.
  ghost predicate AcceptedEdit(accepted: seq<Accepted>, edit: OutboxRow) {
    exists a :: a in accepted && a.owner == edit.account.subject && a.mutation == MutationFrom(edit)
  }

  ghost predicate HasId(outbox: seq<OutboxRow>, id: string) { exists row :: row in outbox && row.mutationId == id }

  ghost predicate IsEdit(edits: map<string, OutboxRow>, row: OutboxRow) {
    row.mutationId in edits && EditOf(row) == edits[row.mutationId]
  }

  // Every queued row is the newest edit of its record, and every newest edit is queued or accepted.
  ghost predicate QueueOk(edits: map<string, OutboxRow>, accepted: seq<Accepted>, outbox: seq<OutboxRow>, latest: map<LocalRecord, string>) {
    && OutboxOk(outbox)
    && (forall row :: row in outbox ==> IsEdit(edits, row) && RecordOfRow(row) in latest && latest[RecordOfRow(row)] == row.mutationId)
    && (forall record :: record in latest ==> LatestOk(edits, accepted, outbox, record, latest[record]))
  }

  ghost predicate LatestOk(edits: map<string, OutboxRow>, accepted: seq<Accepted>, outbox: seq<OutboxRow>, record: LocalRecord, id: string) {
    id in edits && RecordOfRow(edits[id]) == record && (HasId(outbox, id) || AcceptedEdit(accepted, edits[id]))
  }

  // The edit's base is a revision the server issued for that record.
  ghost predicate BaseIssued(log: Log, edit: OutboxRow) {
    edit.baseRevision.Some? ==>
      exists v :: v in log && RecordOf(v) == OnServer(RecordOfRow(edit)) && v.revision == edit.baseRevision.value
  }

  ghost predicate EditsOk(log: Log, edits: map<string, OutboxRow>) {
    forall id :: id in edits ==> edits[id].mutationId == id && edits[id].attemptCount == 0 && BaseIssued(log, edits[id])
  }

  function LastSequence(log: Log): nat { if log == [] then 0 else log[|log| - 1].sequence }

  ghost predicate SyncOk(log: Log, syncState: map<AccountKey, SyncRow>, records: map<LocalRecord, RecordRow>) {
    forall key :: key in syncState ==>
      && Position(syncState[key].checkpoint) <= LastSequence(log)
      && Reflects(records, log, key, Position(syncState[key].checkpoint))
  }

  predicate StoredFor(syncState: map<AccountKey, SyncRow>, key: AccountKey, token: Option<Checkpoint>) {
    key in syncState && syncState[key].checkpoint == token
  }

  // A received page is the window from the client's position to the page's cursor.
  ghost predicate PageOk(log: Log, owner: string, after: nat, page: ChangePage) {
    && after <= page.checkpoint.sequence <= LastSequence(log)
    && page.items == Changes(Window(log, owner, after, page.checkpoint.sequence))
    && (page.nextPageToken.Some? ==> page.nextPageToken.value == page.checkpoint)
  }

  ghost predicate RunOk(log: Log, edits: map<string, OutboxRow>, syncState: map<AccountKey, SyncRow>, run: RunPhase) {
    match run
    case Idle => true
    case Pulling(account, token, _) => StoredFor(syncState, account.key, token)
    case Received(account, token, _, page) =>
      StoredFor(syncState, account.key, token) && PageOk(log, account.key.subject, Position(token), page)
    case Draining(account) => StoredFor(syncState, account.key, account.checkpoint)
    case Sending(account, pending) =>
      && StoredFor(syncState, account.key, account.checkpoint)
      && forall row :: row in pending ==> row.account == account.key && IsEdit(edits, row)
  }

  ghost predicate ClientOk(log: Log, accepted: seq<Accepted>, edits: map<string, OutboxRow>, c: Client) {
    && QueueOk(edits, accepted, c.store.outbox, c.latest)
    && RowsFromLog(c.store.records, log)
    && SyncOk(log, c.store.syncState, c.store.records)
    && RunOk(log, edits, c.store.syncState, c.run)
  }

  ghost predicate LogOk(log: Log, accepted: seq<Accepted>) {
    && log == Serial(accepted) && WellFormed(log)
    && forall i :: 0 <= i < |log| ==> log[i].sequence >= 1
  }

  // The server knows only edits that clients queued.
  ghost predicate ServerOk(accepted: seq<Accepted>, sent: set<Request>, edits: map<string, OutboxRow>) {
    && (forall a :: a in accepted ==> Request(a.owner, a.mutation) in sent)
    && (forall q :: q in sent ==> q.mutation.mutationId in edits && q == RequestFor(edits[q.mutation.mutationId]))
  }

  ghost predicate Inv(w: World) {
    && LogOk(w.log, w.accepted)
    && ServerOk(w.accepted, w.sent, w.edits)
    && EditsOk(w.log, w.edits)
    && (forall id :: id in w.clients ==> ClientOk(w.log, w.accepted, w.edits, w.clients[id]))
  }

  // ----- growth of the log -----

  lemma LastIsLargest(log: Log, v: Version)
    requires Increasing(log) && v in log
    ensures v.sequence <= LastSequence(log)
  {
    var i :| 0 <= i < |log| && log[i] == v;
  }

  lemma QueueGrows(edits: map<string, OutboxRow>, accepted: seq<Accepted>, a: Accepted, outbox: seq<OutboxRow>, latest: map<LocalRecord, string>)
    requires QueueOk(edits, accepted, outbox, latest)
    ensures QueueOk(edits, accepted + [a], outbox, latest)
  {
    forall record | record in latest ensures LatestOk(edits, accepted + [a], outbox, record, latest[record]) {
      assert LatestOk(edits, accepted, outbox, record, latest[record]);
      if !HasId(outbox, latest[record]) {
        var b :| b in accepted && b.owner == edits[latest[record]].account.subject && b.mutation == MutationFrom(edits[latest[record]]);
        assert b in accepted + [a];
      }
    }
  }

  lemma RowsGrow(records: map<LocalRecord, RecordRow>, log: Log, v: Version)
    requires RowsFromLog(records, log)
    ensures RowsFromLog(records, log + [v])
  {
    forall record | record in records ensures IsVersionRow(log + [v], record, records[record]) {
      assert IsVersionRow(log, record, records[record]);
      var u :| u in log && RecordOf(u) == OnServer(record) && records[record] == RowOf(ToChange(u));
      assert u in log + [v];
    }
  }

  lemma SyncGrows(log: Log, v: Version, syncState: map<AccountKey, SyncRow>, records: map<LocalRecord, RecordRow>)
    requires SyncOk(log, syncState, records) && v.sequence > LastSequence(log)
    ensures SyncOk(log + [v], syncState, records)
  {
    forall key | key in syncState ensures Reflects(records, log + [v], key, Position(syncState[key].checkpoint)) {
      ReflectsAppend(records, log, v, key, Position(syncState[key].checkpoint));
    }
  }

  lemma RunGrows(log: Log, v: Version, edits: map<string, OutboxRow>, syncState: map<AccountKey, SyncRow>, run: RunPhase)
    requires RunOk(log, edits, syncState, run) && v.sequence > LastSequence(log)
    ensures RunOk(log + [v], edits, syncState, run)
  {
    if run.Received? {
      WindowAppend(log, v, run.account.key.subject, Position(run.token), run.page.checkpoint.sequence);
    }
  }

  lemma ClientGrows(log: Log, v: Version, accepted: seq<Accepted>, a: Accepted, edits: map<string, OutboxRow>, c: Client)
    requires ClientOk(log, accepted, edits, c) && v.sequence > LastSequence(log)
    ensures ClientOk(log + [v], accepted + [a], edits, c)
  {
    QueueGrows(edits, accepted, a, c.store.outbox, c.latest);
    RowsGrow(c.store.records, log, v);
    SyncGrows(log, v, c.store.syncState, c.store.records);
    RunGrows(log, v, edits, c.store.syncState, c.run);
  }

  lemma EditsGrow(log: Log, v: Version, edits: map<string, OutboxRow>)
    requires EditsOk(log, edits)
    ensures EditsOk(log + [v], edits)
  {
    forall id | id in edits ensures BaseIssued(log + [v], edits[id]) {
      assert BaseIssued(log, edits[id]);
      if edits[id].baseRevision.Some? {
        var u :| u in log && RecordOf(u) == OnServer(RecordOfRow(edits[id])) && u.revision == edits[id].baseRevision.value;
        assert u in log + [v];
      }
    }
  }

  lemma LogGrows(log: Log, accepted: seq<Accepted>, a: Accepted)
    requires LogOk(log, accepted) && a.sequence >= 1 && FindMutation(log, KeyOf(a.owner, a.mutation)).None?
    requires forall i :: 0 <= i < |log| ==> log[i].sequence < a.sequence && log[i].revision != a.revision
    ensures LogOk(log + [Outcome(log, a)], accepted + [a])
  {
    var row := Outcome(log, a);
    AppendKeepsWellFormed(log, row, row.baseRevision);
    assert (accepted + [a])[..|accepted|] == accepted;
  }

  lemma AcceptKeepsInv(w: World, request: Request, sequence: nat, revision: string, createdAt: int)
    requires Inv(w) && Enabled(w, Accept(request, sequence, revision, createdAt))
    ensures Inv(Accepting(w, request, sequence, revision, createdAt))
  {
    if FindMutation(w.log, KeyOf(request.owner, request.mutation)).None? {
      var a := Accepted(request.owner, request.mutation, sequence, revision, createdAt);
      LogGrows(w.log, w.accepted, a);
      EditsGrow(w.log, Outcome(w.log, a), w.edits);
      forall id | id in w.clients ensures ClientOk(w.log + [Outcome(w.log, a)], w.accepted + [a], w.edits, w.clients[id]) {
        ClientGrows(w.log, Outcome(w.log, a), w.accepted, a, w.edits, w.clients[id]);
      }
    }
  }

  // ----- one client's steps -----

  lemma OneClientKeepsInv(w: World, id: nat, c: Client)
    requires Inv(w) && ClientOk(w.log, w.accepted, w.edits, c)
    ensures Inv(SetClient(w, id, c))
  {
  }

  lemma {:induction false} NothingBeforeOne(log: Log, key: RecordKey)
    requires forall i :: 0 <= i < |log| ==> log[i].sequence >= 1
    ensures LastUpTo(log, key, 0) == None
  {
    if log != [] {
      NothingBeforeOne(log[..|log| - 1], key);
    }
  }

  // With no checkpoint nothing is promised, because sequences start at one.
  lemma ReflectsFromStart(records: map<LocalRecord, RecordRow>, log: Log, key: AccountKey)
    requires forall i :: 0 <= i < |log| ==> log[i].sequence >= 1
    ensures Reflects(records, log, key, 0)
  {
    forall record: LocalRecord ensures LastUpTo(log, OnServer(record), 0) == None {
      NothingBeforeOne(log, OnServer(record));
    }
  }

  lemma SaveKeepsClient(log: Log, accepted: seq<Accepted>, edits: map<string, OutboxRow>, c: Client, account: Account)
    requires ClientOk(log, accepted, edits, c) && c.run.Idle?
    requires forall i :: 0 <= i < |log| ==> log[i].sequence >= 1
    ensures ClientOk(log, accepted, edits, Saving(c, account))
  {
    var after := Saving(c, account).store.syncState;
    forall key | key in after
      ensures Position(after[key].checkpoint) <= LastSequence(log)
      ensures Reflects(c.store.records, log, key, Position(after[key].checkpoint))
    {
      if after[key].checkpoint.None? {
        ReflectsFromStart(c.store.records, log, key);
      }
    }
  }

  lemma BeginKeepsClient(log: Log, accepted: seq<Accepted>, edits: map<string, OutboxRow>, c: Client, account: Account)
    requires ClientOk(log, accepted, edits, c) && c.run.Idle?
    requires forall i :: 0 <= i < |log| ==> log[i].sequence >= 1
    ensures var saved := Saving(c, account);
      var token := StoredCheckpoint(saved.store, account.key);
      ClientOk(log, accepted, edits, saved.(run := Pulling(account.(checkpoint := token), token, true)))
  {
    SaveKeepsClient(log, accepted, edits, c, account);
  }

  lemma FetchedPageOk(log: Log, owner: string, after: nat, limit: nat)
    requires Increasing(log) && after <= LastSequence(log)
    ensures PageOk(log, owner, after, Response(PullPage(log, owner, after, limit)))
  {
    PageIsWindow(log, owner, after, limit);
    PageSplits(log, owner, after, limit);
    var page := PullPage(log, owner, after, limit);
    if page.cursor != after {
      var v :| v in log && v.sequence == page.cursor;
      LastIsLargest(log, v);
    }
  }

  lemma FetchKeepsInv(w: World, id: nat, limit: nat)
    requires Inv(w) && Enabled(w, Fetch(id, limit))
    ensures Inv(Next(w, Fetch(id, limit)))
  {
    var c := w.clients[id];
    assert ClientOk(w.log, w.accepted, w.edits, c);
    FetchedPageOk(w.log, c.run.account.key.subject, Position(c.run.token), limit);
    OneClientKeepsInv(w, id, Next(w, Fetch(id, limit)).clients[id]);
  }

  lemma AppliedKeepsSync(log: Log, s: Store, account: AccountKey, token: Option<Checkpoint>, adapters: set<string>, page: ChangePage, now: int)
    requires Increasing(log) && SyncOk(log, s.syncState, s.records) && RowsFromLog(s.records, log)
    requires StoredFor(s.syncState, account, token) && PageOk(log, account.subject, Position(token), page)
    requires Applied(s, adapters, account, page, now).Success?
    ensures var after := Applied(s, adapters, account, page, now).value;
      && SyncOk(log, after.syncState, after.records) && RowsFromLog(after.records, log)
      && after.outbox == s.outbox && StoredFor(after.syncState, account, Some(page.checkpoint))
  {
    var after := Applied(s, adapters, account, page, now).value;
    PageMovesReplica(s.records, log, account, Position(token), page.checkpoint.sequence);
    UpsertedFromLog(log, s.records, account, Position(token), page.checkpoint.sequence);
    forall key | key in after.syncState ensures Reflects(after.records, log, key, Position(after.syncState[key].checkpoint)) {
      if key != account {
        OtherAccountsReflect(s.records, log, account, page.items, key, Position(s.syncState[key].checkpoint));
      }
    }
  }

  lemma OtherAccountsReflect(records: map<LocalRecord, RecordRow>, log: Log, account: AccountKey, items: seq<Change>, key: AccountKey, position: nat)
    requires Reflects(records, log, key, position) && key != account
    ensures Reflects(Upserted(records, account, items), log, key, position)
  {
    forall record: LocalRecord | record.account == key && LastUpTo(log, OnServer(record), position).Some?
      ensures RowAt(Upserted(records, account, items), record) == Some(RowOf(ToChange(LastUpTo(log, OnServer(record), position).value)))
    {
      UpsertedElsewhere(records, account, items, record);
    }
  }

  lemma RetriedIds(s: Store, account: AccountKey, id: string)
    ensures HasId(FailureRecorded(s, account).outbox, id) <==> HasId(s.outbox, id)
  {
    var after := FailureRecorded(s, account).outbox;
    if HasId(s.outbox, id) {
      var row :| row in s.outbox && row.mutationId == id;
      var i :| 0 <= i < |s.outbox| && s.outbox[i] == row;
      assert after[i] in after;
    }
    if HasId(after, id) {
      var row :| row in after && row.mutationId == id;
      var was := RetriedRow(s, account, row);
    }
  }

  lemma FailureKeepsQueue(edits: map<string, OutboxRow>, accepted: seq<Accepted>, s: Store, latest: map<LocalRecord, string>, account: AccountKey)
    requires QueueOk(edits, accepted, s.outbox, latest)
    ensures QueueOk(edits, accepted, FailureRecorded(s, account).outbox, latest)
  {
    var after := FailureRecorded(s, account).outbox;
    FailureKeepsOutbox(s, account);
    forall row | row in after ensures IsEdit(edits, row) && RecordOfRow(row) in latest && latest[RecordOfRow(row)] == row.mutationId {
      var was := RetriedRow(s, account, row);
    }
    forall record | record in latest ensures LatestOk(edits, accepted, after, record, latest[record]) {
      RetriedIds(s, account, latest[record]);
      assert LatestOk(edits, accepted, s.outbox, record, latest[record]);
    }
  }

  lemma FailKeepsClient(log: Log, accepted: seq<Accepted>, edits: map<string, OutboxRow>, c: Client, account: AccountKey)
    requires ClientOk(log, accepted, edits, c)
    ensures ClientOk(log, accepted, edits, c.(store := FailureRecorded(c.store, account), run := Idle))
  {
    FailureKeepsQueue(edits, accepted, c.store, c.latest, account);
  }

  lemma ApplyKeepsInv(w: World, id: nat, now: int)
    requires Inv(w) && Enabled(w, ApplyPage(id, now))
    ensures Inv(Next(w, ApplyPage(id, now)))
  {
    var c := w.clients[id];
    assert ClientOk(w.log, w.accepted, w.edits, c);
    if Applied(c.store, w.adapters, c.run.account.key, c.run.page, now).Success? {
      AppliedKeepsSync(w.log, c.store, c.run.account.key, c.run.token, w.adapters, c.run.page, now);
    } else {
      FailKeepsClient(w.log, w.accepted, w.edits, c, c.run.account.key);
    }
    OneClientKeepsInv(w, id, Applying(w, c, now));
  }

  // ----- the outbox -----

  lemma PendingRows(s: Store, account: AccountKey, limit: int)
    requires limit >= 1
    ensures Pending(s, account, limit).Success?
    ensures forall row :: row in Pending(s, account, limit).value ==> row in s.outbox && row.account == account
  {
    var mine := OfAccount(s.outbox, account);
    assert forall row :: row in Pending(s, account, limit).value ==> row in mine;
  }

  lemma SentKeepsServer(accepted: seq<Accepted>, sent: set<Request>, edits: map<string, OutboxRow>, pending: seq<OutboxRow>)
    requires ServerOk(accepted, sent, edits)
    requires forall row :: row in pending ==> IsEdit(edits, row)
    ensures ServerOk(accepted, sent + Requests(pending), edits)
  {
    forall q | q in Requests(pending) ensures q.mutation.mutationId in edits && q == RequestFor(edits[q.mutation.mutationId]) {
      var row :| row in pending && q == RequestFor(row);
      assert IsEdit(edits, row);
    }
  }

  lemma LoadedIsOk(w: World, id: nat, limit: int)
    requires Inv(w) && Enabled(w, Load(id, limit))
    ensures ClientOk(w.log, w.accepted, w.edits, Loading(w, id, limit).clients[id])
    ensures ServerOk(w.accepted, Loading(w, id, limit).sent, w.edits)
  {
    var c := w.clients[id];
    assert ClientOk(w.log, w.accepted, w.edits, c);
    PendingRows(c.store, c.run.account.key, limit);
    SentKeepsServer(w.accepted, w.sent, w.edits, Pending(c.store, c.run.account.key, limit).value);
  }

  lemma LoadKeepsInv(w: World, id: nat, limit: int)
    requires Inv(w) && Enabled(w, Load(id, limit))
    ensures Inv(Loading(w, id, limit))
  {
    LoadedIsOk(w, id, limit);
    OneClientKeepsInv(w, id, Loading(w, id, limit).clients[id]);
  }

  // An answered edit leaves the outbox, and it is in the log.
  lemma AcknowledgeKeepsQueue(w: World, c: Client)
    requires QueueOk(w.edits, w.accepted, c.store.outbox, c.latest) && c.run.Sending?
    requires forall row :: row in c.run.pending ==> row.account == c.run.account.key && IsEdit(w.edits, row) && Answered(w, RequestFor(row))
    ensures QueueOk(w.edits, w.accepted, Acknowledged(c.store, c.run.account.key, Ids(c.run.pending)).outbox, c.latest)
  {
    var ids := Ids(c.run.pending);
    var after := Acknowledged(c.store, c.run.account.key, ids).outbox;
    AcknowledgedRemoves(c.store, c.run.account.key, ids);
    forall record | record in c.latest ensures LatestOk(w.edits, w.accepted, after, record, c.latest[record]) {
      var id := c.latest[record];
      assert LatestOk(w.edits, w.accepted, c.store.outbox, record, id);
      if HasId(c.store.outbox, id) && !HasId(after, id) {
        var row :| row in c.store.outbox && row.mutationId == id;
        assert row !in after;
        RemovedIsAccepted(w, c, row);
      }
    }
  }

  lemma RemovedIsAccepted(w: World, c: Client, row: OutboxRow)
    requires c.run.Sending? && IsEdit(w.edits, row) && row.mutationId in Ids(c.run.pending)
    requires forall p :: p in c.run.pending ==> p.account == c.run.account.key && IsEdit(w.edits, p) && Answered(w, RequestFor(p))
    ensures AcceptedEdit(w.accepted, w.edits[row.mutationId])
  {
    var i :| 0 <= i < |c.run.pending| && Ids(c.run.pending)[i] == row.mutationId;
    var p := c.run.pending[i];
    assert p in c.run.pending && IsEdit(w.edits, p);
    assert MutationFrom(p) == MutationFrom(w.edits[row.mutationId]);
    assert Answered(w, RequestFor(p));
  }

  lemma AcknowledgeKeepsInv(w: World, id: nat)
    requires Inv(w) && Enabled(w, Acknowledge(id))
    ensures Inv(Next(w, Acknowledge(id)))
  {
    var c := w.clients[id];
    assert ClientOk(w.log, w.accepted, w.edits, c);
    AcknowledgeKeepsQueue(w, c);
    AcknowledgedRemoves(c.store, c.run.account.key, Ids(c.run.pending));
    OneClientKeepsInv(w, id, Next(w, Acknowledge(id)).clients[id]);
  }

  lemma ForgetKeepsClient(log: Log, accepted: seq<Accepted>, edits: map<string, OutboxRow>, c: Client, account: AccountKey)
    requires ClientOk(log, accepted, edits, c) && c.run.Idle?
    ensures ClientOk(log, accepted, edits, Forgetting(c, account))
  {
    var after := Forgetting(c, account);
    ExceptKeepsOutbox(c.store.outbox, ByAccount(account));
    forall record | record in after.latest ensures LatestOk(edits, accepted, after.store.outbox, record, after.latest[record]) {
      var id := c.latest[record];
      assert LatestOk(edits, accepted, c.store.outbox, record, id);
      if HasId(c.store.outbox, id) {
        var row :| row in c.store.outbox && row.mutationId == id;
        assert IsEdit(edits, row);
        assert row in after.store.outbox;
      }
    }
    forall key | key in after.store.syncState ensures Reflects(after.store.records, log, key, Position(after.store.syncState[key].checkpoint)) {
      KeptRowsReflect(c.store.records, log, account, key, Position(c.store.syncState[key].checkpoint));
    }
  }

  lemma KeptRowsReflect(records: map<LocalRecord, RecordRow>, log: Log, account: AccountKey, key: AccountKey, position: nat)
    requires Reflects(records, log, key, position) && key != account
    ensures Reflects(map record | record in records && record.account != account :: records[record], log, key, position)
  {
    var kept := map record | record in records && record.account != account :: records[record];
    forall record: LocalRecord | record.account == key && LastUpTo(log, OnServer(record), position).Some?
      ensures RowAt(kept, record) == Some(RowOf(ToChange(LastUpTo(log, OnServer(record), position).value)))
    {
      assert RowAt(records, record).Some?;
    }
  }

  // ----- local edits -----

  lemma NewBaseIssued(log: Log, edits: map<string, OutboxRow>, s: Store, account: Account, draft: Draft, stamp: Stamp)
    requires EditsOk(log, edits) && RowsFromLog(s.records, log)
    requires forall row :: row in s.outbox ==> IsEdit(edits, row)
    ensures BaseIssued(log, NewEdit(s, account, draft, stamp))
  {
    var record := LocalRecord(account.key, draft.collection, draft.recordId);
    var existing := Queued(s.outbox, record);
    if existing.Some? && existing.value.baseRevision.Some? {
      assert IsEdit(edits, existing.value) && BaseIssued(log, edits[existing.value.mutationId]);
    } else if record in s.records {
      assert IsVersionRow(log, record, s.records[record]);
    }
  }

  lemma QueueOneKeepsQueue(edits: map<string, OutboxRow>, accepted: seq<Accepted>, c: Client, account: Account, draft: Draft, stamp: Stamp)
    requires QueueOk(edits, accepted, c.store.outbox, c.latest) && stamp.mutationId !in edits
    ensures var after := QueueOne(c, account, draft, stamp);
      QueueOk(edits[stamp.mutationId := NewEdit(c.store, account, draft, stamp)], accepted, after.store.outbox, after.latest)
  {
    var after, edit := QueueOne(c, account, draft, stamp), NewEdit(c.store, account, draft, stamp);
    var more := edits[stamp.mutationId := edit];
    assert FreshId(c.store.outbox, stamp.mutationId) by {
      forall row | row in c.store.outbox ensures row.mutationId != stamp.mutationId {
        assert IsEdit(edits, row);
      }
    }
    EnqueueReplaces(c.store, account, draft, stamp);
    forall row | row in after.store.outbox
      ensures IsEdit(more, row) && RecordOfRow(row) in after.latest && after.latest[RecordOfRow(row)] == row.mutationId
    {
      assert row != edit ==> IsEdit(edits, row);
    }
    forall record | record in after.latest ensures LatestOk(more, accepted, after.store.outbox, record, after.latest[record]) {
      if record == RecordOfRow(edit) {
        assert edit in after.store.outbox;
      } else {
        OtherLatestOk(edits, accepted, c, after.store.outbox, edit, record);
      }
    }
  }

  lemma OtherLatestOk(edits: map<string, OutboxRow>, accepted: seq<Accepted>, c: Client, outbox: seq<OutboxRow>, edit: OutboxRow, record: LocalRecord)
    requires QueueOk(edits, accepted, c.store.outbox, c.latest) && edit.mutationId !in edits
    requires record in c.latest && record != RecordOfRow(edit)
    requires forall row :: row in c.store.outbox && RecordOfRow(row) != RecordOfRow(edit) ==> row in outbox
    ensures LatestOk(edits[edit.mutationId := edit], accepted, outbox, record, c.latest[record])
  {
    var id := c.latest[record];
    assert LatestOk(edits, accepted, c.store.outbox, record, id);
    if HasId(c.store.outbox, id) {
      var row :| row in c.store.outbox && row.mutationId == id;
      assert IsEdit(edits, row);
      assert row in outbox;
    }
  }

  ghost predicate EditsExtend(edits: map<string, OutboxRow>, more: map<string, OutboxRow>) {
    forall id :: id in edits ==> id in more && more[id] == edits[id]
  }

  // The history of a queueing, and the tables it leaves.
  lemma {:induction false} QueueAllEdits(c: Client, edits: map<string, OutboxRow>, account: Account, drafts: seq<Draft>, stamps: seq<Stamp>)
    requires |drafts| == |stamps| && FreshStamps(edits, stamps)
    ensures var q := QueueAll(c, edits, account, drafts, stamps);
      && EditsExtend(edits, q.edits)
      && (forall id :: id in q.edits ==> id in edits || exists i :: 0 <= i < |stamps| && stamps[i].mutationId == id)
      && q.client.run == c.run
      && q.client.store == EnqueueAll(c.store, account, drafts, stamps) == c.store.(outbox := q.client.store.outbox)
  {
    if drafts != [] {
      QueueAllEdits(c, edits, account, drafts[..|drafts| - 1], stamps[..|drafts| - 1]);
    }
  }

  lemma {:induction false} QueueAllKeepsQueue(log: Log, edits: map<string, OutboxRow>, accepted: seq<Accepted>, c: Client,
                                              account: Account, drafts: seq<Draft>, stamps: seq<Stamp>)
    requires |drafts| == |stamps| && FreshStamps(edits, stamps)
    requires QueueOk(edits, accepted, c.store.outbox, c.latest) && EditsOk(log, edits) && RowsFromLog(c.store.records, log)
    ensures var q := QueueAll(c, edits, account, drafts, stamps);
      QueueOk(q.edits, accepted, q.client.store.outbox, q.client.latest) && EditsOk(log, q.edits)
  {
    if drafts != [] {
      var n := |drafts| - 1;
      QueueAllKeepsQueue(log, edits, accepted, c, account, drafts[..n], stamps[..n]);
      QueueAllEdits(c, edits, account, drafts[..n], stamps[..n]);
      var before := QueueAll(c, edits, account, drafts[..n], stamps[..n]);
      StampStaysFresh(edits, before.edits, stamps, n);
      QueueOneKeeps(log, before.edits, accepted, before.client, account, drafts[n], stamps[n]);
    }
  }

  lemma QueueOneKeeps(log: Log, edits: map<string, OutboxRow>, accepted: seq<Accepted>, c: Client, account: Account, draft: Draft, stamp: Stamp)
    requires QueueOk(edits, accepted, c.store.outbox, c.latest) && EditsOk(log, edits) && RowsFromLog(c.store.records, log)
    requires stamp.mutationId !in edits
    ensures var after, more := QueueOne(c, account, draft, stamp), edits[stamp.mutationId := NewEdit(c.store, account, draft, stamp)];
      QueueOk(more, accepted, after.store.outbox, after.latest) && EditsOk(log, more)
  {
    QueueOneKeepsQueue(edits, accepted, c, account, draft, stamp);
    NewBaseIssued(log, edits, c.store, account, draft, stamp);
  }

  lemma StampStaysFresh(edits: map<string, OutboxRow>, more: map<string, OutboxRow>, stamps: seq<Stamp>, n: nat)
    requires FreshStamps(edits, stamps) && n < |stamps|
    requires forall id :: id in more ==> id in edits || exists i :: 0 <= i < n && stamps[..n][i].mutationId == id
    ensures stamps[n].mutationId !in more
  {
  }

  // The other clients and the server do not notice new edits.
  lemma EditsExtendQueue(edits: map<string, OutboxRow>, more: map<string, OutboxRow>, accepted: seq<Accepted>,
                         outbox: seq<OutboxRow>, latest: map<LocalRecord, string>)
    requires QueueOk(edits, accepted, outbox, latest) && EditsExtend(edits, more)
    ensures QueueOk(more, accepted, outbox, latest)
  {
    forall record | record in latest ensures LatestOk(more, accepted, outbox, record, latest[record]) {
      assert LatestOk(edits, accepted, outbox, record, latest[record]);
    }
  }

  lemma EditsExtendClient(log: Log, accepted: seq<Accepted>, edits: map<string, OutboxRow>, more: map<string, OutboxRow>, c: Client)
    requires ClientOk(log, accepted, edits, c) && EditsExtend(edits, more)
    ensures ClientOk(log, accepted, more, c)
  {
    EditsExtendQueue(edits, more, accepted, c.store.outbox, c.latest);
  }

  // The client that queued, its tables otherwise as they were or marked as seeded.
  lemma QueuedClientOk(w: World, id: nat, account: Account, drafts: seq<Draft>, stamps: seq<Stamp>, c: Client)
    requires Inv(w) && id in w.clients && |drafts| == |stamps| && FreshStamps(w.edits, stamps)
    requires Marked(QueueAll(w.clients[id], w.edits, account, drafts, stamps).client, c)
    requires SyncOk(w.log, c.store.syncState, c.store.records)
    ensures ClientOk(w.log, w.accepted, QueueAll(w.clients[id], w.edits, account, drafts, stamps).edits, c)
    ensures EditsOk(w.log, QueueAll(w.clients[id], w.edits, account, drafts, stamps).edits)
  {
    assert ClientOk(w.log, w.accepted, w.edits, w.clients[id]);
    QueueAllKeepsQueue(w.log, w.edits, w.accepted, w.clients[id], account, drafts, stamps);
    QueueAllEdits(w.clients[id], w.edits, account, drafts, stamps);
  }

  ghost predicate Marked(queued: Client, c: Client) {
    && c.latest == queued.latest && c.run == queued.run && c.store.outbox == queued.store.outbox && c.store.records == queued.store.records
    && (forall key :: key in queued.store.syncState ==>
          key in c.store.syncState && c.store.syncState[key].checkpoint == queued.store.syncState[key].checkpoint)
  }

  // More edits, and a client that fits them, keep the rest as it was.
  lemma EditsExtendInv(w: World, id: nat, c: Client, edits: map<string, OutboxRow>)
    requires Inv(w) && EditsExtend(w.edits, edits) && EditsOk(w.log, edits) && ClientOk(w.log, w.accepted, edits, c)
    ensures Inv(SetClient(w, id, c).(edits := edits))
  {
    forall other | other in w.clients && other != id ensures ClientOk(w.log, w.accepted, edits, w.clients[other]) {
      EditsExtendClient(w.log, w.accepted, w.edits, edits, w.clients[other]);
    }
  }

  lemma QueueAllKeepsInv(w: World, id: nat, account: Account, drafts: seq<Draft>, stamps: seq<Stamp>, c: Client)
    requires Inv(w) && id in w.clients && |drafts| == |stamps| && FreshStamps(w.edits, stamps)
    requires Marked(QueueAll(w.clients[id], w.edits, account, drafts, stamps).client, c)
    requires SyncOk(w.log, c.store.syncState, c.store.records)
    ensures Inv(SetClient(w, id, c).(edits := QueueAll(w.clients[id], w.edits, account, drafts, stamps).edits))
  {
    QueuedClientOk(w, id, account, drafts, stamps, c);
    QueueAllEdits(w.clients[id], w.edits, account, drafts, stamps);
    EditsExtendInv(w, id, c, QueueAll(w.clients[id], w.edits, account, drafts, stamps).edits);
  }

  lemma CommitKeepsInv(w: World, id: nat, account: Account, drafts: seq<Draft>, stamps: seq<Stamp>)
    requires id in w.clients && |drafts| == |stamps| && Enabled(w, Commit(id, account, drafts, stamps)) && Inv(w)
    ensures Inv(Committing(w, id, account, drafts, stamps))
  {
    var c := w.clients[id];
    assert ClientOk(w.log, w.accepted, w.edits, c);
    QueueAllEdits(c, w.edits, account, drafts, stamps);
    QueueAllKeepsInv(w, id, account, drafts, stamps, QueueAll(c, w.edits, account, drafts, stamps).client);
  }

  // Seeding marks the account beside what queueing does.
  lemma SeededIsMarked(log: Log, s: Store, queued: Client, account: Account, drafts: seq<Draft>, stamps: seq<Stamp>)
    requires |drafts| == |stamps| && SyncOk(log, s.syncState, s.records)
    requires queued.store == EnqueueAll(s, account, drafts, stamps) == s.(outbox := queued.store.outbox)
    ensures var seeded := queued.(store := Seeded(s, account, drafts, stamps));
      Marked(queued, seeded) && SyncOk(log, seeded.store.syncState, seeded.store.records)
  {
  }

  lemma SeedKeepsInv(w: World, id: nat, account: Account, drafts: seq<Draft>, stamps: seq<Stamp>)
    requires id in w.clients && |drafts| == |stamps| && Enabled(w, Seed(id, account, drafts, stamps)) && Inv(w)
    ensures Inv(Seeding(w, id, account, drafts, stamps))
  {
    var c := w.clients[id];
    assert ClientOk(w.log, w.accepted, w.edits, c);
    QueueAllEdits(c, w.edits, account, drafts, stamps);
    var queued := QueueAll(c, w.edits, account, drafts, stamps);
    var seeded := queued.client.(store := Seeded(c.store, account, drafts, stamps));
    SeededIsMarked(w.log, c.store, queued.client, account, drafts, stamps);
    QueueAllKeepsInv(w, id, account, drafts, stamps, seeded);
  }

  // ----- every run -----

  lemma AccountStepKeepsInv(w: World, e: Event)
    requires Inv(w) && Enabled(w, e) && (e.SaveAccount? || e.BeginRun? || e.DeleteLocally?)
    ensures Inv(Next(w, e))
  {
    var c := w.clients[e.client];
    assert ClientOk(w.log, w.accepted, w.edits, c);
    match e {
      case SaveAccount(_, account) => SaveKeepsClient(w.log, w.accepted, w.edits, c, account);
      case BeginRun(_, account) => BeginKeepsClient(w.log, w.accepted, w.edits, c, account);
      case DeleteLocally(_, key) => ForgetKeepsClient(w.log, w.accepted, w.edits, c, key);
    }
    OneClientKeepsInv(w, e.client, Next(w, e).clients[e.client]);
  }

  lemma StopKeepsInv(w: World, e: Event)
    requires Inv(w) && Enabled(w, e) && (e.Fail? || e.Crash?)
    ensures Inv(Next(w, e))
  {
    var c := w.clients[e.client];
    assert ClientOk(w.log, w.accepted, w.edits, c);
    if e.Fail? {
      FailKeepsClient(w.log, w.accepted, w.edits, c, c.run.account.key);
    }
    OneClientKeepsInv(w, e.client, Next(w, e).clients[e.client]);
  }

  lemma QueueStepKeepsInv(w: World, e: Event)
    requires Enabled(w, e) && (e.Commit? || e.Seed?) && Inv(w)
    ensures Inv(Next(w, e))
  {
    if e.Commit? {
      CommitKeepsInv(w, e.client, e.account, e.drafts, e.stamps);
    } else {
      SeedKeepsInv(w, e.client, e.account, e.drafts, e.stamps);
    }
  }

  lemma StepKeepsInv(w: World, e: Event)
    requires Inv(w)
    ensures Inv(Step(w, e))
  {
    if Enabled(w, e) {
      match e
      case Fetch(id, limit) => FetchKeepsInv(w, id, limit);
      case ApplyPage(id, now) => ApplyKeepsInv(w, id, now);
      case Load(id, limit) => LoadKeepsInv(w, id, limit);
      case Accept(request, sequence, revision, createdAt) => AcceptKeepsInv(w, request, sequence, revision, createdAt);
      case Acknowledge(id) => AcknowledgeKeepsInv(w, id);
      case Commit(_, _, _, _) => QueueStepKeepsInv(w, e);
      case Seed(_, _, _, _) => QueueStepKeepsInv(w, e);
      case Fail(_) => StopKeepsInv(w, e);
      case Crash(_) => StopKeepsInv(w, e);
      case _ => AccountStepKeepsInv(w, e);
    }
  }

  lemma InitialInv(w: World)
    requires Initial(w)
    ensures Inv(w)
  {
  }

  lemma {:induction false} RunKeepsInv(w: World, events: seq<Event>)
    requires Inv(w)
    ensures Inv(Run(w, events))
  {
    if events != [] {
      RunKeepsInv(w, events[..|events| - 1]);
      StepKeepsInv(Run(w, events[..|events| - 1]), events[|events| - 1]);
    }
  }
}
