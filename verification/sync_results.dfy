// The end-to-end guarantees, for every run of clients and server from an empty start.
module SyncResults {
  import opened Base
  import opened SyncLog
  import opened Texts
  import opened Drift
  import opened Replica
  import opened SyncSystem
  import opened SyncDelivery

  // Version i was accepted for this edit and is its outcome on the versions before it.
  ghost predicate IsOutcomeOf(log: Log, accepted: seq<Accepted>, i: nat, edit: OutboxRow) {
    && i < |log| && i < |accepted|
    && accepted[i].owner == edit.account.subject && accepted[i].mutation == MutationFrom(edit)
    && log[i] == Outcome(log[..i], accepted[i]) && MutationOf(log[i]) == KeyOf(edit.account.subject, MutationFrom(edit))
  }

  // An accepted edit is found in the log, as the outcome of exactly that edit.
  lemma AcceptedIsLogged(log: Log, accepted: seq<Accepted>, edit: OutboxRow)
    requires LogOk(log, accepted) && AcceptedEdit(accepted, edit)
    ensures exists i :: IsOutcomeOf(log, accepted, i, edit)
    ensures FindMutation(log, KeyOf(edit.account.subject, MutationFrom(edit))).Some?
  {
    var a :| a in accepted && a.owner == edit.account.subject && a.mutation == MutationFrom(edit);
    var i :| 0 <= i < |accepted| && accepted[i] == a;
    SerialAt(accepted, i);
    assert IsOutcomeOf(log, accepted, i, edit);
  }

  lemma LoggedIsEdit(w: World, i: nat)
    requires Inv(w) && i < |w.log|
    ensures w.log[i].mutationId in w.edits && IsOutcomeOf(w.log, w.accepted, i, w.edits[w.log[i].mutationId])
  {
    SerialAt(w.accepted, i);
    var a := w.accepted[i];
    assert a in w.accepted && Request(a.owner, a.mutation) in w.sent;
  }

  // Exactly once: a mutation identifier occurs at most once in the log, every version is the
  // outcome of an edit some client committed, and an outbox holds one edit per record.
  lemma ExactlyOnce(start: World, events: seq<Event>)
    requires Initial(start)
    ensures var w := Run(start, events);
      && (forall i, j :: 0 <= i < j < |w.log| ==> w.log[i].mutationId != w.log[j].mutationId)
      && (forall i :: 0 <= i < |w.log| ==>
            w.log[i].mutationId in w.edits && IsOutcomeOf(w.log, w.accepted, i, w.edits[w.log[i].mutationId]))
  {
    InitialInv(start);
    RunKeepsInv(start, events);
    var w := Run(start, events);
    forall i | 0 <= i < |w.log|
      ensures w.log[i].mutationId in w.edits && IsOutcomeOf(w.log, w.accepted, i, w.edits[w.log[i].mutationId])
    {
      LoggedIsEdit(w, i);
    }
    forall i, j | 0 <= i < j < |w.log| ensures w.log[i].mutationId != w.log[j].mutationId {
      LoggedIsEdit(w, i);
      LoggedIsEdit(w, j);
    }
  }

  lemma OneEditPerRecord(start: World, events: seq<Event>, id: nat, i: nat, j: nat)
    requires Initial(start) && id in Run(start, events).clients
    requires i < j < |Run(start, events).clients[id].store.outbox|
    ensures var outbox := Run(start, events).clients[id].store.outbox;
      RecordOfRow(outbox[i]) != RecordOfRow(outbox[j]) && outbox[i].mutationId != outbox[j].mutationId
  {
    InitialInv(start);
    RunKeepsInv(start, events);
    var w := Run(start, events);
    var outbox := w.clients[id].store.outbox;
    assert ClientOk(w.log, w.accepted, w.edits, w.clients[id]);
    SortedApart(outbox, i, j);
    assert outbox[i] in outbox && outbox[j] in outbox;
    TextTotal(outbox[i].mutationId, outbox[j].mutationId);
  }

  // No edit is lost: the newest committed edit of every record is in the outbox, or the log
  // holds its outcome.
  lemma NewestEditIsSafe(start: World, events: seq<Event>, id: nat, record: LocalRecord)
    requires Initial(start) && id in Run(start, events).clients && record in Run(start, events).clients[id].latest
    ensures Run(start, events).clients[id].latest[record] in Run(start, events).edits
    ensures var w := Run(start, events);
      var edit := w.edits[w.clients[id].latest[record]];
      && RecordOfRow(edit) == record
      && ((exists row :: row in w.clients[id].store.outbox && EditOf(row) == edit)
          || FindMutation(w.log, KeyOf(record.account.subject, MutationFrom(edit))).Some?)
  {
    InitialInv(start);
    RunKeepsInv(start, events);
    var w := Run(start, events);
    var c := w.clients[id];
    assert ClientOk(w.log, w.accepted, w.edits, c);
    assert LatestOk(w.edits, w.accepted, c.store.outbox, record, c.latest[record]);
    var edit := w.edits[c.latest[record]];
    if HasId(c.store.outbox, c.latest[record]) {
      var row :| row in c.store.outbox && row.mutationId == c.latest[record];
      assert IsEdit(w.edits, row);
    } else {
      AcceptedIsLogged(w.log, w.accepted, edit);
    }
  }

  // A newer edit of the record is queued in the row's place.
  ghost predicate Superseded(c: Client, record: LocalRecord, gone: string) {
    record in c.latest && c.latest[record] != gone && HasId(c.store.outbox, c.latest[record])
  }

  lemma {:induction false} QueueAllSupersedes(c: Client, edits: map<string, OutboxRow>, accepted: seq<Accepted>, log: Log,
                                              account: Account, drafts: seq<Draft>, stamps: seq<Stamp>, row: OutboxRow)
    requires |drafts| == |stamps| && FreshStamps(edits, stamps)
    requires QueueOk(edits, accepted, c.store.outbox, c.latest) && EditsOk(log, edits) && RowsFromLog(c.store.records, log)
    requires row in c.store.outbox
    ensures var after := QueueAll(c, edits, account, drafts, stamps).client;
      row in after.store.outbox || Superseded(after, RecordOfRow(row), row.mutationId)
  {
    if drafts != [] {
      var n := |drafts| - 1;
      var before := QueueAll(c, edits, account, drafts[..n], stamps[..n]);
      QueueAllSupersedes(c, edits, accepted, log, account, drafts[..n], stamps[..n], row);
      ReadyForNext(c, edits, accepted, log, account, drafts, stamps, row);
      QueueOneSupersedes(before.client, before.edits, accepted, account, drafts[n], stamps[n], row);
    }
  }

  lemma ReadyForNext(c: Client, edits: map<string, OutboxRow>, accepted: seq<Accepted>, log: Log,
                     account: Account, drafts: seq<Draft>, stamps: seq<Stamp>, row: OutboxRow)
    requires |drafts| == |stamps| && drafts != [] && FreshStamps(edits, stamps)
    requires QueueOk(edits, accepted, c.store.outbox, c.latest) && EditsOk(log, edits) && RowsFromLog(c.store.records, log)
    requires row in c.store.outbox
    ensures var n := |drafts| - 1;
      var before := QueueAll(c, edits, account, drafts[..n], stamps[..n]);
      && QueueOk(before.edits, accepted, before.client.store.outbox, before.client.latest)
      && stamps[n].mutationId !in before.edits && row.mutationId in before.edits
  {
    var n := |drafts| - 1;
    QueueAllKeepsQueue(log, edits, accepted, c, account, drafts[..n], stamps[..n]);
    QueueAllEdits(c, edits, account, drafts[..n], stamps[..n]);
    StampStaysFresh(edits, QueueAll(c, edits, account, drafts[..n], stamps[..n]).edits, stamps, n);
    assert IsEdit(edits, row);
  }

  lemma QueuedIdsAreEdits(edits: map<string, OutboxRow>, accepted: seq<Accepted>, c: Client, id: string)
    requires QueueOk(edits, accepted, c.store.outbox, c.latest) && id !in edits
    ensures FreshId(c.store.outbox, id)
  {
    forall other | other in c.store.outbox ensures other.mutationId != id {
      assert IsEdit(edits, other);
    }
  }

  // The newest edit of another record stays queued.
  lemma NewerStays(edits: map<string, OutboxRow>, accepted: seq<Accepted>, c: Client, outbox: seq<OutboxRow>, edit: OutboxRow, row: OutboxRow)
    requires QueueOk(edits, accepted, c.store.outbox, c.latest) && Superseded(c, RecordOfRow(row), row.mutationId)
    requires RecordOfRow(row) != RecordOfRow(edit)
    requires forall other :: other in c.store.outbox && RecordOfRow(other) != RecordOfRow(edit) ==> other in outbox
    ensures HasId(outbox, c.latest[RecordOfRow(row)])
  {
    var newer :| newer in c.store.outbox && newer.mutationId == c.latest[RecordOfRow(row)];
    assert IsEdit(edits, newer) && LatestOk(edits, accepted, c.store.outbox, RecordOfRow(row), c.latest[RecordOfRow(row)]);
    assert newer in outbox;
  }

  lemma QueueOneSupersedes(c: Client, edits: map<string, OutboxRow>, accepted: seq<Accepted>, account: Account, draft: Draft, stamp: Stamp, row: OutboxRow)
    requires QueueOk(edits, accepted, c.store.outbox, c.latest) && stamp.mutationId !in edits
    requires row.mutationId in edits && (row in c.store.outbox || Superseded(c, RecordOfRow(row), row.mutationId))
    ensures var after := QueueOne(c, account, draft, stamp);
      row in after.store.outbox || Superseded(after, RecordOfRow(row), row.mutationId)
  {
    var after, edit := QueueOne(c, account, draft, stamp), NewEdit(c.store, account, draft, stamp);
    QueuedIdsAreEdits(edits, accepted, c, stamp.mutationId);
    EnqueueReplaces(c.store, account, draft, stamp);
    if RecordOfRow(row) == RecordOfRow(edit) {
      assert edit in after.store.outbox;
    } else if row !in c.store.outbox {
      NewerStays(edits, accepted, c, after.store.outbox, edit, row);
    }
  }

  // Why an edit may leave the outbox in one step: the log has it, a newer edit of the same
  // record was queued by the same transaction, or the account was deleted on this client.
  ghost predicate MayLeave(after: World, e: Event, id: nat, row: OutboxRow) {
    || FindMutation(after.log, KeyOf(row.account.subject, MutationFrom(row))).Some?
    || ((e.Commit? || e.Seed?) && e.client == id && id in after.clients && Superseded(after.clients[id], RecordOfRow(row), row.mutationId))
    || e == DeleteLocally(id, row.account)
  }

  lemma AcknowledgedMayLeave(w: World, c: Client, row: OutboxRow)
    requires ClientOk(w.log, w.accepted, w.edits, c) && LogOk(w.log, w.accepted) && c.run.Sending?
    requires forall p :: p in c.run.pending ==> Answered(w, RequestFor(p))
    requires row in c.store.outbox && row !in Acknowledged(c.store, c.run.account.key, Ids(c.run.pending)).outbox
    ensures FindMutation(w.log, KeyOf(row.account.subject, MutationFrom(row))).Some?
  {
    AcknowledgedRemoves(c.store, c.run.account.key, Ids(c.run.pending));
    assert IsEdit(w.edits, row);
    RemovedIsAccepted(w, c, row);
    AcceptedIsLogged(w.log, w.accepted, w.edits[row.mutationId]);
    assert MutationFrom(row) == MutationFrom(w.edits[row.mutationId]);
  }

  // Both transactions either change nothing or leave what queueing leaves in the outbox.
  lemma QueueingOutbox(w: World, e: Event)
    requires Enabled(w, e) && (e.Commit? || e.Seed?)
    ensures e.client in Next(w, e).clients
    ensures var c, after := w.clients[e.client], Next(w, e).clients[e.client];
      var queued := QueueAll(c, w.edits, e.account, e.drafts, e.stamps).client;
      after == c || (after.store.outbox == queued.store.outbox && after.latest == queued.latest)
  {
    QueueAllEdits(w.clients[e.client], w.edits, e.account, e.drafts, e.stamps);
  }

  lemma CommittedMayLeave(w: World, e: Event, row: OutboxRow)
    requires Inv(w) && Enabled(w, e) && (e.Commit? || e.Seed?) && row in w.clients[e.client].store.outbox
    ensures e.client in Next(w, e).clients
    ensures row in Next(w, e).clients[e.client].store.outbox || Superseded(Next(w, e).clients[e.client], RecordOfRow(row), row.mutationId)
  {
    var c := w.clients[e.client];
    assert ClientOk(w.log, w.accepted, w.edits, c);
    QueueAllSupersedes(c, w.edits, w.accepted, w.log, e.account, e.drafts, e.stamps, row);
    QueueingOutbox(w, e);
  }

  predicate Touches(e: Event, id: nat) { !e.Accept? && e.client == id }

  lemma UntouchedClient(w: World, e: Event, id: nat)
    requires Enabled(w, e) && id in w.clients
    ensures id in Next(w, e).clients
    ensures !Touches(e, id) ==> Next(w, e).clients[id] == w.clients[id]
  {
  }

  lemma KeepsOutboxRow(w: World, e: Event, row: OutboxRow)
    requires Enabled(w, e) && !e.Accept? && e.client in w.clients && row in w.clients[e.client].store.outbox
    requires !e.Acknowledge? && !e.Commit? && !e.Seed? && e != DeleteLocally(e.client, row.account)
    ensures HasId(Next(w, e).clients[e.client].store.outbox, row.mutationId)
  {
    assert HasId(w.clients[e.client].store.outbox, row.mutationId);
    if e.ApplyPage? || e.Fail? {
      RetriedIds(w.clients[e.client].store, w.clients[e.client].run.account.key, row.mutationId);
    }
  }

  lemma LeavesOutboxOnlyIf(w: World, e: Event, id: nat, row: OutboxRow)
    requires Inv(w) && id in w.clients && row in w.clients[id].store.outbox
    ensures id in Step(w, e).clients
    ensures HasId(Step(w, e).clients[id].store.outbox, row.mutationId) || MayLeave(Step(w, e), e, id, row)
  {
    var c := w.clients[id];
    if Enabled(w, e) {
      UntouchedClient(w, e, id);
      if Touches(e, id) {
        if e.Acknowledge? {
          if row !in Acknowledged(c.store, c.run.account.key, Ids(c.run.pending)).outbox {
            assert ClientOk(w.log, w.accepted, w.edits, c);
            AcknowledgedMayLeave(w, c, row);
          }
        } else if e.Commit? || e.Seed? {
          CommittedMayLeave(w, e, row);
        } else if e != DeleteLocally(id, row.account) {
          KeepsOutboxRow(w, e, row);
        }
      }
    }
  }

  // In every reachable state, a record with a version at or before a client's checkpoint has
  // on that client exactly the row of its last such version.
  lemma ReplicaReflectsLog(start: World, events: seq<Event>, id: nat, record: LocalRecord)
    requires Initial(start) && id in Run(start, events).clients
    requires record.account in Run(start, events).clients[id].store.syncState
    ensures var w := Run(start, events);
      var s := w.clients[id].store;
      var last := LastUpTo(w.log, OnServer(record), Position(s.syncState[record.account].checkpoint));
      last.Some? ==> RowAt(s.records, record) == Some(RowOf(ToChange(last.value)))
  {
    InitialInv(start);
    RunKeepsInv(start, events);
    var w := Run(start, events);
    assert ClientOk(w.log, w.accepted, w.edits, w.clients[id]);
  }

  // The client has pulled every version of the account.
  ghost predicate FullyPulled(log: Log, s: Store, account: AccountKey) {
    account in s.syncState
    && forall v :: v in log && v.ownerSub == account.subject ==> v.sequence <= Position(s.syncState[account].checkpoint)
  }

  // Any two clients that have pulled everything of an account hold the same rows of it, those
  // of the last versions.
  lemma ClientsConverge(start: World, events: seq<Event>, a: nat, b: nat, record: LocalRecord)
    requires Initial(start) && a in Run(start, events).clients && b in Run(start, events).clients
    requires var w := Run(start, events);
      && FullyPulled(w.log, w.clients[a].store, record.account) && FullyPulled(w.log, w.clients[b].store, record.account)
    ensures var w := Run(start, events);
      RowAt(w.clients[a].store.records, record) == RowAt(w.clients[b].store.records, record) == CurrentRow(w.log, record)
  {
    InitialInv(start);
    RunKeepsInv(start, events);
    var w := Run(start, events);
    assert ClientOk(w.log, w.accepted, w.edits, w.clients[a]) && ClientOk(w.log, w.accepted, w.edits, w.clients[b]);
    var p := Position(w.clients[a].store.syncState[record.account].checkpoint);
    var q := Position(w.clients[b].store.syncState[record.account].checkpoint);
    FullyPulledRow(w.clients[a].store.records, w.log, record, p);
    FullyPulledRow(w.clients[b].store.records, w.log, record, q);
  }

  // Clients never guess a base revision: each one sent was issued for that record before.
  lemma SentBasesWereIssued(start: World, events: seq<Event>, request: Request)
    requires Initial(start) && request in Run(start, events).sent && request.mutation.baseRevision.Some?
    ensures exists v :: v in Run(start, events).log && RecordOf(v) == Target(request.owner, request.mutation)
              && v.revision == request.mutation.baseRevision.value
  {
    InitialInv(start);
    RunKeepsInv(start, events);
    var w := Run(start, events);
    assert BaseIssued(w.log, w.edits[request.mutation.mutationId]);
  }
}
