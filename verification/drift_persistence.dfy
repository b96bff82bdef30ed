// The operations of the client's persistence over its tables.
module DriftPersistence {
  import opened Base
  import opened Json
  import opened SyncLog
  import opened Drift

  class Persistence {
    const adapters: set<string>
    var syncState: map<AccountKey, SyncRow>
    var records: map<LocalRecord, RecordRow>
    var outbox: seq<OutboxRow>
    var deletedAccounts: set<AccountKey>

    ghost function View(): Store
      reads this
    {
      Store(syncState, records, outbox, deletedAccounts)
    }

    constructor (adapters: set<string>)
      ensures this.adapters == adapters && View() == Store(map[], map[], [], {})
    {
      this.adapters := adapters;
      syncState, records, outbox, deletedAccounts := map[], map[], [], {};
    }

    // Queues one edit in place of the one already queued for its record.
    method Enqueue(account: Account, draft: Draft, stamp: Stamp)
      modifies this`outbox
      ensures View() == Drift.Enqueue(old(View()), account, draft, stamp)
      ensures OutboxOk(old(outbox)) && FreshId(old(outbox), stamp.mutationId) ==> Queues(old(View()), View(), account, draft, stamp)
    {
      ghost var before := View();
      var record := LocalRecord(account.key, draft.collection, draft.recordId);
      var existing := Queued(outbox, record);
      var synced := if record in records then Some(records[record].revision) else None;
      if existing.Some? {
        outbox := Except(outbox, ById(existing.value.mutationId));
      }
      var base := if existing.Some? && existing.value.baseRevision.Some? then existing.value.baseRevision else synced;
      outbox := Inserted(outbox, OutboxRow(stamp.mutationId, account.key, account.deviceId, draft.collection, draft.recordId,
        base, draft.operation, draft.payload, stamp.createdAt, 0));
      if OutboxOk(before.outbox) && FreshId(before.outbox, stamp.mutationId) {
        EnqueueQueues(before, account, draft, stamp);
      }
    }

    // The edit's transaction: everything is queued, or nothing is.
    method Commit(account: Option<Account>, drafts: seq<Draft>, stamps: seq<Stamp>) returns (error: Option<StoreError>)
      requires |drafts| == |stamps|
      modifies this`outbox
      ensures match Committed(old(View()), adapters, account, drafts, stamps)
        case Success(after) => error.None? && View() == after
        case Failure(e) => error == Some(e) && View() == old(View())
    {
      error := None;
      if account.Some? {
        if account.value.key in deletedAccounts {
          error := Some(AccountDeleted);
        } else {
          error := EnqueueKnown(account.value, drafts, stamps);
        }
      }
    }

    // The loop of the transaction; an unknown collection rolls it back.
    method EnqueueKnown(account: Account, drafts: seq<Draft>, stamps: seq<Stamp>) returns (error: Option<StoreError>)
      requires |drafts| == |stamps|
      modifies this`outbox
      ensures if Known(adapters, drafts) then error.None? && View() == EnqueueAll(old(View()), account, drafts, stamps)
              else error == Some(UnknownCollection) && View() == old(View())
    {
      var snapshot := outbox;
      var i := 0;
      error := None;
      assert drafts[..0] == [];
      while i < |drafts| && error.None?
        invariant i <= |drafts| && View() == EnqueueAll(old(View()), account, drafts[..i], stamps[..i])
        invariant Known(adapters, drafts[..i])
        invariant error.Some? ==> error.value == UnknownCollection && !Known(adapters, drafts)
        decreases |drafts| - i, error.None?
      {
        KnownOneMore(adapters, drafts, i);
        if drafts[i].collection !in adapters {
          error := Some(UnknownCollection);
        } else {
          EnqueueOneMore(old(View()), account, drafts, stamps, i);
          Enqueue(account, drafts[i], stamps[i]);
          i := i + 1;
        }
      }
      if error.Some? {
        outbox := snapshot;
      } else {
        assert drafts[..i] == drafts && stamps[..i] == stamps;
      }
    }

    method LoadPending(account: AccountKey, limit: int) returns (pending: Result<seq<OutboxRow>, StoreError>)
      ensures pending == Pending(View(), account, limit)
      ensures limit < 1 <==> pending == Failure(InvalidLimit)
      ensures limit >= 1 && Sorted(outbox) ==> AreOldest(pending.value, outbox, account, limit)
    {
      if limit < 1 {
        pending := Failure(InvalidLimit);
      } else {
        var mine := OfAccount(outbox, account);
        pending := Success(if |mine| <= limit then mine else mine[..limit]);
        if Sorted(outbox) {
          PendingAreOldest(View(), account, limit);
        }
      }
    }

    // Deletes the answered edits, by identifier.
    method Acknowledge(account: AccountKey, mutationIds: seq<string>)
      modifies this`outbox
      ensures View() == Acknowledged(old(View()), account, mutationIds)
    {
      for i := 0 to |mutationIds|
        invariant View() == Acknowledged(old(View()), account, mutationIds[..i])
      {
        assert mutationIds[..i + 1][..i] == mutationIds[..i];
        outbox := Except(outbox, ByIdOf(mutationIds[i], account));
      }
      assert mutationIds[..|mutationIds|] == mutationIds;
    }

    // A page's rows and its checkpoint, in one transaction.
    method ApplyPull(account: AccountKey, page: ChangePage, now: int) returns (error: Option<StoreError>)
      modifies this`records, this`syncState
      ensures match Applied(old(View()), adapters, account, page, now)
        case Success(after) => error.None? && View() == after
        case Failure(e) => error == Some(e) && View() == old(View())
    {
      var snapshot := records;
      var i := 0;
      error := None;
      assert page.items[..0] == [];
      while i < |page.items| && error.None?
        invariant i <= |page.items| && syncState == old(syncState)
        invariant error.None? ==> records == Upserted(old(records), account, page.items[..i])
        invariant error.None? ==> Applicable(adapters, page.items[..i])
        invariant error.Some? ==> error.value == UnknownCollection && !Applicable(adapters, page.items)
        decreases |page.items| - i, error.None?
      {
        var change := page.items[i];
        if change.collection !in adapters {
          error := Some(UnknownCollection);
        } else {
          assert page.items[..i + 1][..i] == page.items[..i];
          records := records[LocalRecord(account, change.collection, change.recordId) := RowOf(change)];
          i := i + 1;
        }
      }
      if error.Some? {
        records := snapshot;
      } else {
        assert page.items[..i] == page.items;
        if account in syncState {
          syncState := syncState[account := syncState[account].(checkpoint := Some(page.checkpoint), lastSyncedAt := Some(now))];
        }
      }
    }

    method SaveAccount(account: Account) returns (saved: Account)
      modifies this`syncState
      ensures View() == Saved(old(View()), account)
      ensures MadeActive(old(View()), View(), account)
      ensures saved == account.(checkpoint := View().syncState[account.key].checkpoint)
    {
      SavedIsOnlyActive(View(), account);
      var existing := if account.key in syncState then Some(syncState[account.key]) else None;
      var switches := exists key | key in syncState.Keys :: syncState[key].active && key != account.key;
      saved := account.(checkpoint := if switches || existing.None? then None else existing.value.checkpoint);
      syncState := map key | key in syncState :: syncState[key].(active := false);
      syncState := syncState[account.key := SyncRow(account.deviceId, saved.checkpoint, existing.Some? && existing.value.seeded, true,
        if existing.Some? then existing.value.lastSyncedAt else None)];
    }

    // Queues what the adapters hold before the first synchronisation, once.
    method SeedIfNeeded(account: Account, drafts: seq<Draft>, stamps: seq<Stamp>)
      requires |drafts| == |stamps|
      modifies this`outbox, this`syncState
      ensures View() == if IsSeeded(old(View()), account.key) then old(View()) else Seeded(old(View()), account, drafts, stamps)
      ensures account.key in old(syncState) ==> IsSeeded(View(), account.key)
    {
      if !(account.key in syncState && syncState[account.key].seeded) {
        QueueSeeds(account, drafts, stamps);
      }
    }

    // The transaction, whatever happened since the mark was read.
    method QueueSeeds(account: Account, drafts: seq<Draft>, stamps: seq<Stamp>)
      requires |drafts| == |stamps|
      modifies this`outbox, this`syncState
      ensures View() == Seeded(old(View()), account, drafts, stamps)
    {
      for i := 0 to |drafts|
        invariant View() == EnqueueAll(old(View()), account, drafts[..i], stamps[..i])
      {
        EnqueueOneMore(old(View()), account, drafts, stamps, i);
        Enqueue(account, drafts[i], stamps[i]);
      }
      assert drafts[..|drafts|] == drafts && stamps[..|drafts|] == stamps;
      SeedsKeepState(old(View()), account, drafts, stamps);
      if account.key in syncState {
        syncState := syncState[account.key := syncState[account.key].(seeded := true)];
      }
    }

    method RecordFailure(account: AccountKey)
      modifies this`outbox
      ensures View() == FailureRecorded(old(View()), account)
    {
      outbox := seq(|outbox|, i requires 0 <= i < |outbox| reads this => Retried(outbox[i], account));
    }

    method DeleteAccount(account: AccountKey)
      modifies this
      ensures View() == Forgotten(old(View()), account) && Erased(old(View()), View(), account)
    {
      ForgottenIsGone(View(), Account(account, "", None), {}, [], []);
      deletedAccounts := deletedAccounts + {account};
      outbox := Except(outbox, ByAccount(account));
      records := map record | record in records && record.account != account :: records[record];
      syncState := map key | key in syncState && key != account :: syncState[key];
    }
  }

  lemma EnqueueOneMore(s: Store, account: Account, drafts: seq<Draft>, stamps: seq<Stamp>, i: nat)
    requires |drafts| == |stamps| && i < |drafts|
    ensures EnqueueAll(s, account, drafts[..i + 1], stamps[..i + 1])
         == Drift.Enqueue(EnqueueAll(s, account, drafts[..i], stamps[..i]), account, drafts[i], stamps[i])
  {
    assert drafts[..i + 1][..i] == drafts[..i] && stamps[..i + 1][..i] == stamps[..i];
  }

  lemma KnownOneMore(adapters: set<string>, drafts: seq<Draft>, i: nat)
    requires i < |drafts| && Known(adapters, drafts[..i])
    ensures drafts[i].collection in adapters ==> Known(adapters, drafts[..i + 1])
    ensures drafts[i].collection !in adapters ==> !Known(adapters, drafts)
  {
    forall j | 0 <= j < i ensures drafts[j].collection in adapters {
      assert drafts[..i][j] == drafts[j];
    }
  }

  // Queueing touches only the outbox.
  lemma {:induction false} SeedsKeepState(s: Store, account: Account, drafts: seq<Draft>, stamps: seq<Stamp>)
    requires |drafts| == |stamps|
    ensures var after := EnqueueAll(s, account, drafts, stamps); after == s.(outbox := after.outbox)
  {
    if drafts != [] {
      SeedsKeepState(s, account, drafts[..|drafts| - 1], stamps[..|drafts| - 1]);
    }
  }
}
