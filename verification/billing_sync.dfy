// Billing snapshots: numbered fetches from the provider and the conditional commit, under
// any interleaving of synchronisations and event deliveries.
module BillingSync {
  import opened Base

  // The stored snapshot; the rest is history of the synchronisation that committed it.
  datatype Snapshot = Snapshot(observedAt: int, generation: nat, begunAt: nat, requestedAt: nat)

  // `identifiedAt` is history: when the row, and with it the identity, appeared.
  datatype BillingRow = BillingRow(appUserId: string, identifiedAt: nat, generation: nat, snapshot: Option<Snapshot>)

  // A synchronisation that has drawn its generation; `answer` is what the provider sent back.
  datatype Sync = Sync(owner: string, generation: nat, begunAt: nat, answer: Option<Answer>, committed: bool)

  datatype Answer = Answer(observedAt: int, requestedAt: nat)

  // A delivery of a provider event: the owners found for its identities so far, and the
  // identities whose owner it has synchronised.
  datatype Delivery = Delivery(eventId: string, userIds: set<string>, startedAt: nat, found: map<string, Finding>, synchronized: set<string>)

  datatype Finding = Finding(owner: Option<string>, at: nat)

  datatype Commit = Commit(owner: string, snapshot: Snapshot)

  datatype State = State(
    rows: map<string, BillingRow>,        // by owner, in one environment
    processed: set<string>,
    clock: nat,                           // history: statements so far
    syncs: map<nat, Sync>,                // history: synchronisations begun
    deliveries: map<nat, Delivery>,       // history: deliveries begun
    commits: seq<Commit>)                 // history: what was committed, in order

  const INITIAL := State(map[], {}, 0, map[], map[], [])

  datatype Event =
    | Identify(owner: string, appUserId: string)
    | BeginSync(sync: nat, owner: string)
    | Fetch(sync: nat, observedAt: int)
    | CommitSync(sync: nat)
    | CheckEvent(delivery: nat, eventId: string, userIds: set<string>)
    | Lookup(delivery: nat, appUserId: string, result: Option<string>)
    | Synchronized(delivery: nat, appUserId: string, sync: nat)
    | MarkProcessed(delivery: nat)

  predicate Owns(s: State, owner: string, appUserId: string) { owner in s.rows && s.rows[owner].appUserId == appUserId }

  // The unique index: no two rows share an identity.
  predicate Used(s: State, appUserId: string) { exists owner | owner in s.rows.Keys :: s.rows[owner].appUserId == appUserId }

  // When the conditional update changes the row.
  predicate Commits(row: BillingRow, generation: nat, observedAt: int) {
    row.generation == generation && (row.snapshot.None? || row.snapshot.value.observedAt <= observedAt)
  }

  // The query for an identity's owner gives this.
  predicate IsOwner(s: State, owner: Option<string>, appUserId: string) {
    if owner.Some? then Owns(s, owner.value, appUserId) else !Used(s, appUserId)
  }

  // The delivery's call for this identity is over: no one owned it, or its owner was synchronised.
  predicate Handled(d: Delivery, appUserId: string) {
    appUserId in d.found && (d.found[appUserId].owner.Some? ==> appUserId in d.synchronized)
  }

  // Its loop is over.
  predicate Complete(d: Delivery) { forall id | id in d.userIds :: Handled(d, id) }

  // A synchronisation commits only what it fetched. A delivery looks every identity up, has the
  // owner it found synchronised after that, and marks the event when its loop is over.
  predicate Enabled(s: State, e: Event) {
    match e
    case Identify(_, _) => true
    case BeginSync(sync, owner) => sync !in s.syncs && owner in s.rows
    case Fetch(sync, _) => sync in s.syncs && s.syncs[sync].answer.None?
    case CommitSync(sync) => sync in s.syncs && s.syncs[sync].answer.Some? && !s.syncs[sync].committed && s.syncs[sync].owner in s.rows
    case CheckEvent(delivery, eventId, _) => delivery !in s.deliveries && eventId !in s.processed
    case Lookup(delivery, appUserId, result) =>
      && delivery in s.deliveries && appUserId in s.deliveries[delivery].userIds && appUserId !in s.deliveries[delivery].found
      && IsOwner(s, result, appUserId)
    case Synchronized(delivery, appUserId, sync) =>
      && delivery in s.deliveries && appUserId in s.deliveries[delivery].found
      && sync in s.syncs && s.syncs[sync].committed
      && s.deliveries[delivery].found[appUserId].owner == Some(s.syncs[sync].owner)
      && s.deliveries[delivery].found[appUserId].at <= s.syncs[sync].begunAt
    case MarkProcessed(delivery) => delivery in s.deliveries && Complete(s.deliveries[delivery])
  }

  function Committed(s: State, sync: nat): State
    requires Enabled(s, CommitSync(sync))
  {
    var c := s.syncs[sync];
    var row := s.rows[c.owner];
    if !Commits(row, c.generation, c.answer.value.observedAt) then s else
      var snapshot := Snapshot(c.answer.value.observedAt, c.generation, c.begunAt, c.answer.value.requestedAt);
      s.(rows := s.rows[c.owner := row.(snapshot := Some(snapshot))],
         syncs := s.syncs[sync := c.(committed := true)],
         commits := s.commits + [Commit(c.owner, snapshot)])
  }

  function Effect(s: State, e: Event): State
    requires Enabled(s, e)
  {
    match e
    case Identify(owner, appUserId) => if owner in s.rows || Used(s, appUserId) then s else s.(rows := s.rows[owner := BillingRow(appUserId, s.clock, 0, None)])
    case BeginSync(sync, owner) =>
      var generation := s.rows[owner].generation + 1;
      s.(rows := s.rows[owner := s.rows[owner].(generation := generation)],
         syncs := s.syncs[sync := Sync(owner, generation, s.clock, None, false)])
    case Fetch(sync, observedAt) => s.(syncs := s.syncs[sync := s.syncs[sync].(answer := Some(Answer(observedAt, s.clock)))])
    case CommitSync(sync) => Committed(s, sync)
    case CheckEvent(delivery, eventId, userIds) =>
      s.(deliveries := s.deliveries[delivery := Delivery(eventId, userIds, s.clock, map[], {})])
    case Lookup(delivery, appUserId, result) =>
      var d := s.deliveries[delivery];
      s.(deliveries := s.deliveries[delivery := d.(found := d.found[appUserId := Finding(result, s.clock)])])
    case Synchronized(delivery, appUserId, _) =>
      var d := s.deliveries[delivery];
      s.(deliveries := s.deliveries[delivery := d.(synchronized := d.synchronized + {appUserId})])
    case MarkProcessed(delivery) => s.(processed := s.processed + {s.deliveries[delivery].eventId})
  }

  function Next(s: State, e: Event): State
    requires Enabled(s, e)
  {
    Effect(s, e).(clock := s.clock + 1)
  }

  function Step(s: State, e: Event): State { if Enabled(s, e) then Next(s, e) else s }

  function Run(s: State, events: seq<Event>): State {
    if events == [] then s else Step(Run(s, events[..|events| - 1]), events[|events| - 1])
  }

  // ----- the invariant -----

  // A synchronisation's generation is one of its owner's, drawn in the order of beginning.
  ghost predicate SyncOk(s: State, c: Sync) {
    && c.owner in s.rows && 1 <= c.generation <= s.rows[c.owner].generation && c.begunAt < s.clock
    && (c.answer.Some? ==> c.begunAt < c.answer.value.requestedAt < s.clock)
    && (c.committed ==> c.answer.Some? && Reached(s, c.owner, c.generation, c.begunAt))
  }

  // The owner's snapshot comes from a synchronisation begun at or after this one.
  ghost predicate Reached(s: State, owner: string, generation: nat, begunAt: nat) {
    owner in s.rows && s.rows[owner].snapshot.Some?
    && s.rows[owner].snapshot.value.generation >= generation && s.rows[owner].snapshot.value.begunAt >= begunAt
  }

  ghost predicate OrderOk(a: Sync, b: Sync) {
    a.owner == b.owner ==> a.generation != b.generation && (a.generation < b.generation ==> a.begunAt < b.begunAt)
  }

  ghost predicate RowOk(s: State, owner: string) {
    owner in s.rows ==> s.rows[owner].identifiedAt < s.clock && (s.rows[owner].snapshot.Some? ==> SnapshotOk(s, owner))
  }

  ghost predicate SnapshotOk(s: State, owner: string)
    requires owner in s.rows && s.rows[owner].snapshot.Some?
  {
    var v := s.rows[owner].snapshot.value;
    v.generation <= s.rows[owner].generation && v.begunAt < v.requestedAt < s.clock && exists id :: CommittedBy(s, owner, v, id)
  }

  ghost predicate CommittedBy(s: State, owner: string, v: Snapshot, id: nat) {
    && id in s.syncs && s.syncs[id].committed
    && s.syncs[id].owner == owner && s.syncs[id].generation == v.generation && s.syncs[id].begunAt == v.begunAt
  }

  ghost predicate DeliveryOk(s: State, d: Delivery) {
    d.startedAt < s.clock && d.synchronized <= d.found.Keys && forall id :: id in d.found ==> d.startedAt < d.found[id].at < s.clock && FindingOk(s, d, id)
  }

  // An owner that was found still has the identity, and since its synchronisation a fresh
  // snapshot; where none was found, only a later row can have the identity.
  ghost predicate FindingOk(s: State, d: Delivery, id: string)
    requires id in d.found
  {
    var at := d.found[id].at;
    match d.found[id].owner
    case Some(owner) => Owns(s, owner, id) && (id in d.synchronized ==> Fresh(s, owner, at))
    case None => forall owner :: Owns(s, owner, id) ==> s.rows[owner].identifiedAt > at
  }

  // The owner has a stored snapshot that was requested after this moment.
  ghost predicate Fresh(s: State, owner: string, since: nat) {
    owner in s.rows && s.rows[owner].snapshot.Some?
    && s.rows[owner].snapshot.value.begunAt >= since && s.rows[owner].snapshot.value.requestedAt > since
  }

  // Commits of an owner strictly increase in generation and beginning, and never go back in time.
  ghost predicate CommitsOk(s: State) {
    && (forall i, j :: 0 <= i < j < |s.commits| && s.commits[i].owner == s.commits[j].owner ==>
          Later(s.commits[i].snapshot, s.commits[j].snapshot))
    && (forall i :: 0 <= i < |s.commits| ==> Latest(s, s.commits[i]))
  }

  predicate Later(a: Snapshot, b: Snapshot) {
    a.generation < b.generation && a.begunAt < b.begunAt && a.observedAt <= b.observedAt
  }

  // The stored snapshot is this commit's or a later one.
  ghost predicate Latest(s: State, c: Commit) {
    c.owner in s.rows && s.rows[c.owner].snapshot.Some?
    && (s.rows[c.owner].snapshot.value == c.snapshot || Later(c.snapshot, s.rows[c.owner].snapshot.value))
  }

  ghost predicate SyncsOk(s: State) {
    && (forall id :: id in s.syncs ==> SyncOk(s, s.syncs[id]))
    && (forall i, j :: i in s.syncs && j in s.syncs && i != j ==> OrderOk(s.syncs[i], s.syncs[j]))
  }

  ghost predicate RowsOk(s: State) { forall owner :: owner in s.rows ==> RowOk(s, owner) }

  ghost predicate DeliveriesOk(s: State) { forall d :: d in s.deliveries ==> DeliveryOk(s, s.deliveries[d]) }

  // A provider identity belongs to one owner.
  ghost predicate IdentitiesOk(s: State) {
    forall a, b :: a in s.rows && b in s.rows && s.rows[a].appUserId == s.rows[b].appUserId ==> a == b
  }

  ghost predicate ProcessedOk(s: State) {
    forall eventId :: eventId in s.processed ==> exists id :: CompletedFor(s, eventId, id)
  }

  ghost predicate CompletedFor(s: State, eventId: string, id: nat) {
    id in s.deliveries && s.deliveries[id].eventId == eventId && Complete(s.deliveries[id])
  }

  ghost predicate Inv(s: State) {
    SyncsOk(s) && RowsOk(s) && DeliveriesOk(s) && CommitsOk(s) && IdentitiesOk(s) && ProcessedOk(s)
  }

  // Whatever is stored when a commit succeeds was begun before it and observed no later.
  lemma CommitIsLater(s: State, sync: nat)
    requires Inv(s) && Enabled(s, CommitSync(sync))
    requires Commits(s.rows[s.syncs[sync].owner], s.syncs[sync].generation, s.syncs[sync].answer.value.observedAt)
    ensures var c := s.syncs[sync];
      var row := s.rows[c.owner];
      row.snapshot.Some? ==>
        Later(row.snapshot.value, Snapshot(c.answer.value.observedAt, c.generation, c.begunAt, c.answer.value.requestedAt))
  {
    var c := s.syncs[sync];
    var row := s.rows[c.owner];
    if row.snapshot.Some? {
      assert RowOk(s, c.owner);
      var id :| CommittedBy(s, c.owner, row.snapshot.value, id);
      assert OrderOk(s.syncs[id], c);
    }
  }

  predicate SameIdentity(a: BillingRow, b: BillingRow) { a.appUserId == b.appUserId && a.identifiedAt == b.identifiedAt }

  // Statements other than commits keep every snapshot.
  ghost predicate SnapshotsKept(s: State, after: State) {
    && s.clock <= after.clock && s.commits == after.commits
    && (forall owner :: owner in s.rows ==>
          && owner in after.rows && SameIdentity(s.rows[owner], after.rows[owner])
          && after.rows[owner].snapshot == s.rows[owner].snapshot && s.rows[owner].generation <= after.rows[owner].generation)
    && (forall owner :: owner in after.rows && owner !in s.rows ==> after.rows[owner].snapshot == None && s.clock <= after.rows[owner].identifiedAt < after.clock)
    && (forall id :: id in s.syncs && s.syncs[id].committed ==> id in after.syncs && after.syncs[id] == s.syncs[id])
  }

  lemma KeptSnapshots(s: State, after: State)
    requires RowsOk(s) && CommitsOk(s) && SnapshotsKept(s, after)
    ensures RowsOk(after) && CommitsOk(after)
  {
    forall owner | owner in after.rows ensures RowOk(after, owner) {
      if owner in s.rows && s.rows[owner].snapshot.Some? {
        assert RowOk(s, owner);
        var id :| CommittedBy(s, owner, s.rows[owner].snapshot.value, id);
        assert CommittedBy(after, owner, after.rows[owner].snapshot.value, id);
      }
    }
    forall i | 0 <= i < |after.commits| ensures Latest(after, after.commits[i]) {
      assert Latest(s, s.commits[i]);
    }
  }

  lemma KeptDelivery(s: State, after: State, d: Delivery)
    requires DeliveryOk(s, d) && SnapshotsKept(s, after)
    ensures DeliveryOk(after, d)
  {
    forall id | id in d.found ensures FindingOk(after, d, id) {
      assert FindingOk(s, d, id);
    }
  }

  lemma KeptDeliveries(s: State, after: State)
    requires DeliveriesOk(s) && SnapshotsKept(s, after) && after.deliveries == s.deliveries
    ensures DeliveriesOk(after)
  {
    forall d | d in after.deliveries ensures DeliveryOk(after, after.deliveries[d]) {
      assert DeliveryOk(s, s.deliveries[d]);
      KeptDelivery(s, after, s.deliveries[d]);
    }
  }

  lemma SyncsStep(s: State, e: Event)
    requires SyncsOk(s) && Enabled(s, e) && !e.CommitSync?
    ensures SyncsOk(Next(s, e))
  {
    var after := Next(s, e);
    forall id | id in after.syncs ensures SyncOk(after, after.syncs[id]) {
      assert id in s.syncs ==> SyncOk(s, s.syncs[id]);
    }
    forall i, j | i in after.syncs && j in after.syncs && i != j ensures OrderOk(after.syncs[i], after.syncs[j]) {
      assert i in s.syncs ==> SyncOk(s, s.syncs[i]);
      assert j in s.syncs ==> SyncOk(s, s.syncs[j]);
    }
  }

  predicate IsDeliveryStep(e: Event) { e.CheckEvent? || e.Lookup? || e.Synchronized? || e.MarkProcessed? }

  lemma LookupOk(s: State, e: Event)
    requires Inv(s) && Enabled(s, e) && e.Lookup?
    ensures DeliveryOk(Next(s, e), Next(s, e).deliveries[e.delivery])
  {
    var after := Next(s, e);
    var d, d' := s.deliveries[e.delivery], after.deliveries[e.delivery];
    assert DeliveryOk(s, d);
    forall id | id in d'.found ensures d'.startedAt < d'.found[id].at < after.clock && FindingOk(after, d', id) {
      assert id in d.found ==> FindingOk(s, d, id);
      assert id == e.appUserId ==> id !in d.synchronized;
    }
  }

  lemma SynchronizedOk(s: State, e: Event)
    requires Inv(s) && Enabled(s, e) && e.Synchronized?
    ensures DeliveryOk(Next(s, e), Next(s, e).deliveries[e.delivery])
  {
    var after := Next(s, e);
    var d, d', owner := s.deliveries[e.delivery], after.deliveries[e.delivery], s.syncs[e.sync].owner;
    assert DeliveryOk(s, d) && SyncOk(s, s.syncs[e.sync]) && RowOk(s, owner);
    forall id | id in d'.found ensures FindingOk(after, d', id) {
      assert FindingOk(s, d, id);
    }
  }

  lemma DeliveriesStep(s: State, e: Event)
    requires Inv(s) && Enabled(s, e) && IsDeliveryStep(e)
    ensures DeliveriesOk(Next(s, e))
  {
    var after := Next(s, e);
    StepKeepsSnapshots(s, e);
    forall d | d in after.deliveries ensures DeliveryOk(after, after.deliveries[d]) {
      if d in s.deliveries && after.deliveries[d] == s.deliveries[d] {
        assert DeliveryOk(s, s.deliveries[d]);
        KeptDelivery(s, after, s.deliveries[d]);
      } else if e.Lookup? {
        LookupOk(s, e);
      } else if e.Synchronized? {
        SynchronizedOk(s, e);
      }
    }
  }

  lemma ProcessedStep(s: State, e: Event)
    requires ProcessedOk(s) && Enabled(s, e)
    ensures ProcessedOk(Next(s, e))
  {
    var after := Next(s, e);
    forall eventId | eventId in after.processed ensures exists id :: CompletedFor(after, eventId, id) {
      if eventId in s.processed {
        var id :| CompletedFor(s, eventId, id);
        StaysComplete(s, e, id);
        assert CompletedFor(after, eventId, id);
      } else {
        assert CompletedFor(after, eventId, e.delivery);
      }
    }
  }

  lemma StaysComplete(s: State, e: Event, id: nat)
    requires Enabled(s, e) && id in s.deliveries && Complete(s.deliveries[id])
    ensures var after := Next(s, e);
      id in after.deliveries && after.deliveries[id].eventId == s.deliveries[id].eventId && Complete(after.deliveries[id])
  {
    var d, d' := s.deliveries[id], Next(s, e).deliveries[id];
    forall x | x in d'.userIds ensures Handled(d', x) {
      assert Handled(d, x);
    }
  }

  lemma StepKeepsSnapshots(s: State, e: Event)
    requires SyncsOk(s) && Enabled(s, e) && !e.CommitSync?
    ensures SnapshotsKept(s, Next(s, e))
  {
    var after := Next(s, e);
    forall id | id in s.syncs && s.syncs[id].committed ensures id in after.syncs && after.syncs[id] == s.syncs[id] {
      assert SyncOk(s, s.syncs[id]);
    }
  }

  lemma IdentitiesStep(s: State, e: Event)
    requires IdentitiesOk(s) && Enabled(s, e)
    ensures IdentitiesOk(Next(s, e))
  {
  }

  lemma OtherStepKeepsInv(s: State, e: Event)
    requires Inv(s) && Enabled(s, e) && !e.CommitSync?
    ensures Inv(Next(s, e))
  {
    SyncsStep(s, e);
    IdentitiesStep(s, e);
    StepKeepsSnapshots(s, e);
    KeptSnapshots(s, Next(s, e));
    ProcessedStep(s, e);
    if IsDeliveryStep(e) {
      DeliveriesStep(s, e);
    } else {
      KeptDeliveries(s, Next(s, e));
    }
  }

  // What a commit changes for everything recorded before it.
  lemma CommitRaises(s: State, sync: nat)
    requires Inv(s) && Enabled(s, CommitSync(sync))
    requires Commits(s.rows[s.syncs[sync].owner], s.syncs[sync].generation, s.syncs[sync].answer.value.observedAt)
    ensures var after := Next(s, CommitSync(sync));
      && (forall owner, generation, begunAt :: Reached(s, owner, generation, begunAt) ==> Reached(after, owner, generation, begunAt))
      && (forall owner, since :: Fresh(s, owner, since) ==> Fresh(after, owner, since))
      && (forall c :: Latest(s, c) ==> Latest(after, c))
      && (forall owner :: owner in s.rows <==> owner in after.rows)
      && (forall owner :: owner in s.rows ==> SameIdentity(s.rows[owner], after.rows[owner]))
  {
    CommitIsLater(s, sync);
    assert SyncOk(s, s.syncs[sync]);
  }

  lemma CommitKeepsRows(s: State, sync: nat)
    requires Inv(s) && Enabled(s, CommitSync(sync))
    requires Commits(s.rows[s.syncs[sync].owner], s.syncs[sync].generation, s.syncs[sync].answer.value.observedAt)
    ensures RowsOk(Next(s, CommitSync(sync)))
  {
    var c, after := s.syncs[sync], Next(s, CommitSync(sync));
    forall owner | owner in after.rows ensures RowOk(after, owner) {
      assert RowOk(s, owner);
      if owner == c.owner {
        assert SyncOk(s, c);
        assert CommittedBy(after, owner, after.rows[owner].snapshot.value, sync);
      } else if s.rows[owner].snapshot.Some? {
        var id :| CommittedBy(s, owner, s.rows[owner].snapshot.value, id);
        assert CommittedBy(after, owner, s.rows[owner].snapshot.value, id);
      }
    }
  }

  lemma CommitKeepsSyncs(s: State, sync: nat)
    requires Inv(s) && Enabled(s, CommitSync(sync))
    requires Commits(s.rows[s.syncs[sync].owner], s.syncs[sync].generation, s.syncs[sync].answer.value.observedAt)
    ensures SyncsOk(Next(s, CommitSync(sync)))
  {
    var after := Next(s, CommitSync(sync));
    CommitRaises(s, sync);
    forall id | id in after.syncs ensures SyncOk(after, after.syncs[id]) {
      assert SyncOk(s, s.syncs[id]);
    }
    forall i, j | i in after.syncs && j in after.syncs && i != j ensures OrderOk(after.syncs[i], after.syncs[j]) {
      assert OrderOk(s.syncs[i], s.syncs[j]);
    }
  }

  lemma CommitKeepsDeliveries(s: State, sync: nat)
    requires Inv(s) && Enabled(s, CommitSync(sync))
    requires Commits(s.rows[s.syncs[sync].owner], s.syncs[sync].generation, s.syncs[sync].answer.value.observedAt)
    ensures DeliveriesOk(Next(s, CommitSync(sync)))
  {
    var after := Next(s, CommitSync(sync));
    CommitRaises(s, sync);
    forall d | d in after.deliveries ensures DeliveryOk(after, after.deliveries[d]) {
      assert DeliveryOk(s, s.deliveries[d]);
      forall id | id in s.deliveries[d].found ensures FindingOk(after, s.deliveries[d], id) {
        assert FindingOk(s, s.deliveries[d], id);
      }
    }
  }

  lemma RefusedKeepsInv(s: State)
    requires Inv(s)
    ensures Inv(s.(clock := s.clock + 1))
  {
    var after := s.(clock := s.clock + 1);
    KeptSnapshots(s, after);
    KeptDeliveries(s, after);
    assert forall eventId, id :: CompletedFor(s, eventId, id) ==> CompletedFor(after, eventId, id);
    forall id | id in after.syncs ensures SyncOk(after, after.syncs[id]) {
      assert SyncOk(s, s.syncs[id]);
    }
  }

  lemma CommitStepKeepsInv(s: State, sync: nat)
    requires Inv(s) && Enabled(s, CommitSync(sync))
    ensures Inv(Next(s, CommitSync(sync)))
  {
    var c := s.syncs[sync];
    IdentitiesStep(s, CommitSync(sync));
    ProcessedStep(s, CommitSync(sync));
    if Commits(s.rows[c.owner], c.generation, c.answer.value.observedAt) {
      CommitKeepsRows(s, sync);
      CommitKeepsSyncs(s, sync);
      CommitKeepsDeliveries(s, sync);
      CommitKeepsHistory(s, sync);
    } else {
      RefusedKeepsInv(s);
    }
  }

  lemma CommitKeepsHistory(s: State, sync: nat)
    requires Inv(s) && Enabled(s, CommitSync(sync))
    requires Commits(s.rows[s.syncs[sync].owner], s.syncs[sync].generation, s.syncs[sync].answer.value.observedAt)
    ensures CommitsOk(Next(s, CommitSync(sync)))
  {
    CommitIsLater(s, sync);
    CommitRaises(s, sync);
    var after := Next(s, CommitSync(sync));
    forall i | 0 <= i < |after.commits| ensures Latest(after, after.commits[i]) {
      assert i < |s.commits| ==> Latest(s, s.commits[i]);
    }
    forall i, j | 0 <= i < j < |after.commits| && after.commits[i].owner == after.commits[j].owner
      ensures Later(after.commits[i].snapshot, after.commits[j].snapshot)
    {
      assert Latest(s, s.commits[i]);
    }
  }

  lemma StepKeepsInv(s: State, e: Event)
    requires Inv(s)
    ensures Inv(Step(s, e))
  {
    if Enabled(s, e) {
      if e.CommitSync? {
        CommitStepKeepsInv(s, e.sync);
      } else {
        OtherStepKeepsInv(s, e);
      }
    }
  }

  lemma {:induction false} RunKeepsInv(events: seq<Event>)
    ensures Inv(Run(INITIAL, events))
  {
    if events != [] {
      RunKeepsInv(events[..|events| - 1]);
      StepKeepsInv(Run(INITIAL, events[..|events| - 1]), events[|events| - 1]);
    }
  }

  // ----- what only ever moves forward -----

  // The same delivery, further on.
  predicate Continues(a: Delivery, b: Delivery) {
    a.eventId == b.eventId && a.userIds == b.userIds && a.startedAt == b.startedAt && a.synchronized <= b.synchronized
    && forall id | id in a.found.Keys :: id in b.found && b.found[id] == a.found[id]
  }

  ghost predicate Evolves(a: State, b: State) {
    && a.clock <= b.clock && a.processed <= b.processed
    && (forall owner :: owner in a.rows ==>
          owner in b.rows && SameIdentity(a.rows[owner], b.rows[owner]) && a.rows[owner].generation <= b.rows[owner].generation)
    && (forall owner, since :: Fresh(a, owner, since) ==> Fresh(b, owner, since))
    && (forall id :: id in a.deliveries ==> id in b.deliveries && Continues(a.deliveries[id], b.deliveries[id]))
    && (forall id :: id in a.syncs && a.syncs[id].committed ==> id in b.syncs && b.syncs[id] == a.syncs[id])
  }

  lemma KeptEvolves(s: State, e: Event)
    requires SyncsOk(s) && Enabled(s, e) && !e.CommitSync?
    ensures Evolves(s, Next(s, e))
  {
    StepKeepsSnapshots(s, e);
    var after := Next(s, e);
    forall owner, since | Fresh(s, owner, since) ensures Fresh(after, owner, since) {
      assert after.rows[owner].snapshot == s.rows[owner].snapshot;
    }
  }

  lemma CommitEvolves(s: State, sync: nat)
    requires Inv(s) && Enabled(s, CommitSync(sync))
    ensures Evolves(s, Next(s, CommitSync(sync)))
  {
    if Commits(s.rows[s.syncs[sync].owner], s.syncs[sync].generation, s.syncs[sync].answer.value.observedAt) {
      CommitRaises(s, sync);
    }
  }

  lemma StepEvolves(s: State, e: Event)
    requires Inv(s) && Enabled(s, e)
    ensures Evolves(s, Next(s, e))
  {
    if e.CommitSync? {
      CommitEvolves(s, e.sync);
    } else {
      KeptEvolves(s, e);
    }
  }

  lemma EvolvesTransitive(a: State, b: State, c: State)
    requires Evolves(a, b) && Evolves(b, c)
    ensures Evolves(a, c)
  {
  }

  // ----- the results -----

  // Under any interleaving, the commits of an owner strictly increase in generation and in
  // the moment their synchronisation began, and the observation time never decreases.
  lemma CommitsAreOrdered(events: seq<Event>, i: nat, j: nat)
    requires i < j < |Run(INITIAL, events).commits|
    requires Run(INITIAL, events).commits[i].owner == Run(INITIAL, events).commits[j].owner
    ensures var s := Run(INITIAL, events);
      var a, b := s.commits[i].snapshot, s.commits[j].snapshot;
      a.generation < b.generation && a.begunAt < b.begunAt && a.observedAt <= b.observedAt
  {
    RunKeepsInv(events);
  }

  // Once a later synchronisation of the owner has begun, an earlier one never overwrites anything.
  lemma EarlierNeverOverwrites(events: seq<Event>, earlier: nat, later: nat)
    requires var s := Run(INITIAL, events);
      && earlier in s.syncs && later in s.syncs && s.syncs[earlier].owner == s.syncs[later].owner
      && s.syncs[earlier].begunAt < s.syncs[later].begunAt
    ensures var s := Run(INITIAL, events);
      Step(s, CommitSync(earlier)).rows == s.rows
  {
    RunKeepsInv(events);
    var s := Run(INITIAL, events);
    var a, b := s.syncs[earlier], s.syncs[later];
    assert SyncOk(s, a) && SyncOk(s, b) && OrderOk(a, b) && OrderOk(b, a);
  }

  // Whoever owns one of the delivery's identities has a stored snapshot requested after the
  // delivery looked that identity up, or got the identity only after that.
  ghost predicate Delivered(s: State, d: Delivery) {
    forall id, owner :: id in d.userIds && Owns(s, owner, id) ==>
      id in d.found && (Fresh(s, owner, d.found[id].at) || s.rows[owner].identifiedAt > d.found[id].at)
  }

  lemma CompleteIsDelivered(s: State, id: nat)
    requires Inv(s) && id in s.deliveries && Complete(s.deliveries[id])
    ensures Delivered(s, s.deliveries[id])
  {
    var d := s.deliveries[id];
    assert DeliveryOk(s, d);
    forall x, owner | x in d.userIds && Owns(s, owner, x)
      ensures x in d.found && (Fresh(s, owner, d.found[x].at) || s.rows[owner].identifiedAt > d.found[x].at)
    {
      assert Handled(d, x) && FindingOk(s, d, x);
    }
  }

  // In every reachable state a processed event has a delivery that looked up every identity it
  // names after it began; and every present owner of one of them has a stored snapshot that was
  // requested after that look-up, or became its owner only later.
  lemma ProcessedMeansFresh(events: seq<Event>, eventId: string) returns (delivery: nat)
    requires eventId in Run(INITIAL, events).processed
    ensures var s := Run(INITIAL, events);
      && delivery in s.deliveries && s.deliveries[delivery].eventId == eventId && Delivered(s, s.deliveries[delivery])
      && forall id :: id in s.deliveries[delivery].userIds ==>
           id in s.deliveries[delivery].found && s.deliveries[delivery].found[id].at > s.deliveries[delivery].startedAt
  {
    RunKeepsInv(events);
    var s := Run(INITIAL, events);
    delivery :| CompletedFor(s, eventId, delivery);
    CompleteIsDelivered(s, delivery);
    assert DeliveryOk(s, s.deliveries[delivery]);
    forall id | id in s.deliveries[delivery].userIds ensures id in s.deliveries[delivery].found {
      assert Handled(s.deliveries[delivery], id);
    }
  }
}
