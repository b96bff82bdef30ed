// The billing use cases as sequences of statements, with other synchronisations and
// deliveries running at each await.
module BillingService {
  import opened Base
  import opened BillingSync

  datatype BillingError = ConfigurationMissing | MissingAccount | ProviderUnavailable | SyncSuperseded

  lemma RunOneMore(events: seq<Event>, e: Event)
    ensures Run(INITIAL, events + [e]) == Step(Run(INITIAL, events), e)
  {
    assert (events + [e])[..|events|] == events;
  }

  // A label not used before.
  function Unused(ids: set<nat>, from: nat): (id: nat)
    ensures id !in ids && id >= from
    decreases |ids|
  {
    if from in ids then Unused(ids - {from}, from + 1) else from
  }

  // This process's own synchronisations are where it left them.
  ghost predicate Mine(a: State, b: State, mine: set<nat>) {
    forall id :: id in mine && id in a.syncs ==> id in b.syncs && b.syncs[id] == a.syncs[id]
  }

  // The deliveries of this process are where it left them, and the rest only moved forward.
  ghost predicate Goes(a: State, b: State, handling: set<nat>) {
    && Evolves(a, b)
    && forall id :: id in handling && id in a.deliveries ==> b.deliveries[id] == a.deliveries[id]
  }

  lemma GoesTransitive(a: State, b: State, c: State, handling: set<nat>)
    requires Goes(a, b, handling) && Goes(b, c, handling)
    ensures Goes(a, c, handling)
  {
    EvolvesTransitive(a, b, c);
  }

  // Not a statement of this process's calls.
  predicate Foreign(e: Event, mine: set<nat>, handling: set<nat>) {
    && ((e.BeginSync? || e.Fetch? || e.CommitSync?) ==> e.sync !in mine)
    && (IsDeliveryStep(e) ==> e.delivery !in handling)
  }

  lemma OtherKeepsMine(s: State, e: Event, mine: set<nat>, handling: set<nat>)
    requires Enabled(s, e) && Foreign(e, mine, handling)
    ensures Mine(s, Next(s, e), mine)
    ensures forall id :: id in handling && id in s.deliveries ==>
      id in Next(s, e).deliveries && Next(s, e).deliveries[id] == s.deliveries[id]
  {
  }

  class Service {
    var db: State
    // Everything that happened to the database since the start, by whomever.
    ghost var trace: seq<Event>
    // The synchronisations and deliveries of this process; no other process continues them.
    var mine: set<nat>
    var handling: set<nat>
    // What other calls do at each point where this one awaits; any script is possible.
    var others: seq<seq<Event>>
    // The observation time of each answer of the provider; None is a failure.
    const answers: nat -> Option<int>
    var asked: nat
    const configured: bool

    ghost predicate Valid()
      reads this
    {
      db == Run(INITIAL, trace) && Inv(db)
    }

    constructor (others: seq<seq<Event>>, answers: nat -> Option<int>, configured: bool)
      ensures Valid() && db == INITIAL && this.others == others && this.answers == answers && this.configured == configured
    {
      this.db, this.others, this.answers, this.configured, asked, mine, handling := INITIAL, others, answers, configured, 0, {}, {};
      trace := [];
    }

    // One statement of this call.
    method Execute(e: Event)
      requires Valid() && Enabled(db, e)
      modifies this`db, this`trace
      ensures Valid() && db == Next(old(db), e) && Evolves(old(db), db)
      ensures !IsDeliveryStep(e) ==> Goes(old(db), db, handling)
    {
      StepKeepsInv(db, e);
      StepEvolves(db, e);
      RunOneMore(trace, e);
      db := Next(db, e);
      trace := trace + [e];
    }

    // One statement of another call.
    method ExecuteOther(e: Event)
      requires Valid()
      modifies this`db, this`trace
      ensures Valid() && Goes(old(db), db, handling)
      ensures Mine(old(db), db, mine)
    {
      if Enabled(db, e) && Foreign(e, mine, handling) {
        OtherKeepsMine(db, e, mine, handling);
        StepKeepsInv(db, e);
        StepEvolves(db, e);
        RunOneMore(trace, e);
        db := Next(db, e);
        trace := trace + [e];
      }
    }

    // Lets the other calls run until this one continues.
    method Await()
      requires Valid()
      modifies this`db, this`trace, this`others
      ensures Valid() && Goes(old(db), db, handling)
      ensures Mine(old(db), db, mine)
      ensures old(others) == [] ==> db == old(db) && others == []
    {
      if others != [] {
        var events := others[0];
        others := others[1..];
        for i := 0 to |events|
          invariant Valid() && Goes(old(db), db, handling)
          invariant Mine(old(db), db, mine)
        {
          ghost var before := db;
          ExecuteOther(events[i]);
          GoesTransitive(old(db), before, db, handling);
        }
      }
    }

    // The identity's insert, and the new generation after another await.
    method Start(owner: string, appUserId: string) returns (sync: Option<nat>)
      requires Valid()
      modifies this`db, this`trace, this`mine, this`others
      ensures Valid() && Goes(old(db), db, handling) && old(mine) <= mine
      ensures sync.Some? ==>
        sync.value in mine && Waiting(db, sync.value, owner, old(db).clock)
        && db.syncs[sync.value].answer.None? && !db.syncs[sync.value].committed
        && db.syncs[sync.value].generation == db.rows[owner].generation
      ensures sync.None? ==> owner !in db.rows
    {
      Execute(Identify(owner, appUserId));
      ghost var before := db;
      Await();
      GoesTransitive(old(db), before, db, handling);
      sync := None;
      if owner in db.rows {
        before := db;
        var id := Draw(owner);
        GoesTransitive(old(db), before, db, handling);
        sync := Some(id);
      }
    }

    // The owner's next generation.
    method Draw(owner: string) returns (sync: nat)
      requires Valid() && owner in db.rows
      modifies this`db, this`trace, this`mine
      ensures Valid() && Goes(old(db), db, handling) && old(mine) <= mine
      ensures sync in mine && Waiting(db, sync, owner, old(db).clock)
      ensures db.syncs[sync].answer.None? && !db.syncs[sync].committed && db.syncs[sync].generation == db.rows[owner].generation
    {
      sync := Unused(db.syncs.Keys, 0);
      mine := mine + {sync};
      Execute(BeginSync(sync, owner));
    }

    // The conditional commit; whether it changed the row.
    method Store(owner: string, sync: nat, ghost since: nat) returns (changes: bool)
      requires Valid() && Waiting(db, sync, owner, since) && db.syncs[sync].answer.Some? && !db.syncs[sync].committed
      modifies this`db, this`trace
      ensures Valid() && Goes(old(db), db, handling) && Waiting(db, sync, owner, since)
      ensures changes == Commits(old(db).rows[owner], old(db).syncs[sync].generation, old(db).syncs[sync].answer.value.observedAt)
      ensures changes == db.syncs[sync].committed
      ensures changes ==> Fresh(db, owner, since)
      ensures !changes ==> Refused(db, sync, owner)
    {
      var c := db.syncs[sync];
      changes := Commits(db.rows[owner], c.generation, c.answer.value.observedAt);
      assert SyncOk(db, c);
      Execute(CommitSync(sync));
      CommittedIsFresh(db, sync, since);
    }

    // The provider's answer, and the commit after another await.
    method Finish(owner: string, sync: nat, ghost since: nat) returns (error: Option<BillingError>)
      requires Valid() && sync in mine && Waiting(db, sync, owner, since) && db.syncs[sync].answer.None? && !db.syncs[sync].committed
      modifies this`db, this`trace, this`others, this`asked
      ensures Valid() && Goes(old(db), db, handling)
      ensures error.None? ==> Waiting(db, sync, owner, since) && db.syncs[sync].committed && Fresh(db, owner, since)
      ensures error == Some(ProviderUnavailable) <==> answers(old(asked)).None?
      ensures error.Some? && answers(old(asked)).Some? ==> error.value == SyncSuperseded && Refused(db, sync, owner)
    {
      var answer := answers(asked);
      asked := asked + 1;
      error := Some(ProviderUnavailable);
      if answer.Some? {
        Receive(owner, sync, answer.value, since);
        ghost var before := db;
        var changes := Store(owner, sync, since);
        GoesTransitive(old(db), before, db, handling);
        error := if changes then None else Some(SyncSuperseded);
      }
    }

    method Receive(owner: string, sync: nat, observedAt: int, ghost since: nat)
      requires Valid() && sync in mine && Waiting(db, sync, owner, since) && db.syncs[sync].answer.None? && !db.syncs[sync].committed
      modifies this`db, this`trace, this`others
      ensures Valid() && Goes(old(db), db, handling)
      ensures Waiting(db, sync, owner, since) && db.syncs[sync].answer.Some? && !db.syncs[sync].committed
      ensures db.syncs[sync].answer.value.observedAt == observedAt
    {
      Await();
      ghost var before := db;
      Record(sync, observedAt);
      GoesTransitive(old(db), before, db, handling);
      before := db;
      Await();
      GoesTransitive(old(db), before, db, handling);
    }

    // The provider's answer is there.
    method Record(sync: nat, observedAt: int)
      requires Valid() && sync in db.syncs && db.syncs[sync].answer.None?
      modifies this`db, this`trace
      ensures Valid() && Goes(old(db), db, handling)
      ensures sync in db.syncs && db.syncs[sync] == old(db).syncs[sync].(answer := Some(Answer(observedAt, old(db).clock)))
      ensures db.rows == old(db).rows
    {
      Execute(Fetch(sync, observedAt));
    }

    // One synchronisation; it reports success only for a snapshot it committed itself.
    method Synchronize(owner: string, appUserId: string) returns (result: Result<nat, BillingError>)
      requires Valid()
      modifies this`db, this`trace, this`mine, this`others, this`asked
      ensures Valid() && Goes(old(db), db, handling)
      ensures result.Success? ==>
        Waiting(db, result.value, owner, old(db).clock) && db.syncs[result.value].committed && Fresh(db, owner, old(db).clock)
      ensures result == Failure(ConfigurationMissing) <==> !configured
      ensures result == Failure(MissingAccount) ==> owner !in old(db).rows
    {
      if !configured {
        result := Failure(ConfigurationMissing);
      } else {
        var sync := Start(owner, appUserId);
        result := Failure(MissingAccount);
        if sync.Some? {
          ghost var before := db;
          var error := Finish(owner, sync.value, old(db).clock);
          GoesTransitive(old(db), before, db, handling);
          result := if error.None? then Success(sync.value) else Failure(error.value);
        }
      }
    }

    // The owner of a provider identity, if any.
    method Owner(appUserId: string) returns (owner: Option<string>)
      ensures owner.Some? ==> Owns(db, owner.value, appUserId)
      ensures owner.None? ==> !Used(db, appUserId)
    {
      owner := None;
      if exists o | o in db.rows.Keys :: db.rows[o].appUserId == appUserId {
        var o :| o in db.rows.Keys && db.rows[o].appUserId == appUserId;
        owner := Some(o);
      }
    }

    // Synchronises the owner of one identity for a delivery; an unknown identity is skipped.
    method Notify(delivery: nat, id: string) returns (error: Option<BillingError>)
      requires Valid() && delivery in db.deliveries && delivery in handling
      requires id in db.deliveries[delivery].userIds && id !in db.deliveries[delivery].found
      modifies this`db, this`trace, this`mine, this`others, this`asked
      ensures Valid() && Evolves(old(db), db)
      ensures error.None? ==> Handled(db.deliveries[delivery], id)
      ensures error.None? ==> db.deliveries[delivery].found.Keys == old(db).deliveries[delivery].found.Keys + {id}
    {
      var owner := Find(delivery, id);
      error := None;
      if owner.Some? {
        ghost var before := db;
        error := SynchronizeFound(delivery, id, owner.value);
        EvolvesTransitive(old(db), before, db);
      }
    }

    method SynchronizeFound(delivery: nat, id: string, owner: string) returns (error: Option<BillingError>)
      requires Valid() && delivery in db.deliveries && delivery in handling
      requires id in db.deliveries[delivery].found && db.deliveries[delivery].found[id].owner == Some(owner)
      requires db.deliveries[delivery].found[id].at < db.clock
      modifies this`db, this`trace, this`mine, this`others, this`asked
      ensures Valid() && Evolves(old(db), db)
      ensures error.None? ==> Handled(db.deliveries[delivery], id)
      ensures error.None? ==> db.deliveries[delivery].found == old(db).deliveries[delivery].found
    {
      var result := Synchronize(owner, id);
      error := None;
      if result.Failure? {
        error := Some(result.error);
      } else {
        ghost var before := db;
        Confirm(delivery, id, result.value);
        EvolvesTransitive(old(db), before, db);
      }
    }

    // The query for the identity's owner.
    method Find(delivery: nat, id: string) returns (owner: Option<string>)
      requires Valid() && delivery in db.deliveries
      requires id in db.deliveries[delivery].userIds && id !in db.deliveries[delivery].found
      modifies this`db, this`trace
      ensures Valid() && Evolves(old(db), db)
      ensures var d := old(db).deliveries[delivery];
        db.deliveries[delivery] == d.(found := d.found[id := Finding(owner, old(db).clock)])
      ensures owner.Some? ==> Owns(db, owner.value, id)
      ensures db.clock > old(db).clock
    {
      owner := Owner(id);
      Execute(Lookup(delivery, id, owner));
    }

    // The synchronisation begun after the look-up has succeeded.
    method Confirm(delivery: nat, id: string, sync: nat)
      requires Valid() && Enabled(db, Synchronized(delivery, id, sync))
      modifies this`db, this`trace
      ensures Valid() && Evolves(old(db), db)
      ensures Handled(db.deliveries[delivery], id) && db.deliveries[delivery].found == old(db).deliveries[delivery].found
    {
      Execute(Synchronized(delivery, id, sync));
    }

    // One delivery of an event: it is marked processed only when every owner it found for an
    // identity at that moment has a snapshot requested after that; whoever else owns one of
    // them got it later.
    method Webhook(eventId: string, userIds: set<string>) returns (error: Option<BillingError>, ghost delivery: nat)
      requires Valid()
      modifies this`db, this`trace, this`mine, this`handling, this`others, this`asked
      ensures Valid() && Evolves(old(db), db)
      ensures eventId in old(db).processed ==> error.None? && db == old(db)
      ensures error.None? ==> eventId in db.processed
      ensures error.None? && eventId !in old(db).processed ==> Served(old(db), db, delivery, eventId, userIds)
    {
      error, delivery := None, 0;
      if eventId !in db.processed {
        error, delivery := Deliver(eventId, userIds);
      }
    }

    method Deliver(eventId: string, userIds: set<string>) returns (error: Option<BillingError>, ghost delivery: nat)
      requires Valid() && eventId !in db.processed
      modifies this`db, this`trace, this`mine, this`handling, this`others, this`asked
      ensures Valid() && Evolves(old(db), db)
      ensures error.None? ==> eventId in db.processed && Served(old(db), db, delivery, eventId, userIds)
    {
      var id := Unused(db.deliveries.Keys, 0);
      delivery := id;
      handling := handling + {id};
      Execute(CheckEvent(id, eventId, userIds));
      ghost var started := db;
      error := NotifyAll(id);
      EvolvesTransitive(old(db), started, db);
      if error.None? {
        ghost var before := db;
        CompleteIsServed(old(db), started, db, id);
        Execute(MarkProcessed(id));
        EvolvesTransitive(old(db), before, db);
        ServedLasts(old(db), before, db, id, eventId, userIds);
      }
    }

    // The loop's next identity, after an await.
    method NotifyNext(delivery: nat, id: string, ghost before: set<string>) returns (error: Option<BillingError>)
      requires Valid() && delivery in db.deliveries && delivery in handling && HandledSoFar(db.deliveries[delivery], before)
      requires id in db.deliveries[delivery].userIds && id !in before
      modifies this`db, this`trace, this`mine, this`others, this`asked
      ensures Valid() && Evolves(old(db), db)
      ensures error.None? ==> HandledSoFar(db.deliveries[delivery], before + {id})
    {
      Await();
      ghost var start := db;
      error := Notify(delivery, id);
      EvolvesTransitive(old(db), start, db);
      if error.None? {
        OneMoreHandled(start.deliveries[delivery], db.deliveries[delivery], before, id);
      }
    }

    method NotifyAll(delivery: nat) returns (error: Option<BillingError>)
      requires Valid() && delivery in db.deliveries && delivery in handling && db.deliveries[delivery].found == map[]
      modifies this`db, this`trace, this`mine, this`others, this`asked
      ensures Valid() && Evolves(old(db), db)
      ensures error.None? ==> Complete(db.deliveries[delivery])
    {
      var userIds := db.deliveries[delivery].userIds;
      var remaining := userIds;
      error := None;
      while remaining != {} && error.None?
        invariant Valid() && Evolves(old(db), db) && remaining <= userIds
        invariant delivery in db.deliveries && db.deliveries[delivery].userIds == userIds
        invariant error.None? ==> HandledSoFar(db.deliveries[delivery], userIds - remaining)
        decreases remaining, error.None?
      {
        ghost var before := db;
        var id :| id in remaining;
        error := NotifyNext(delivery, id, userIds - remaining);
        EvolvesTransitive(old(db), before, db);
        assert userIds - (remaining - {id}) == userIds - remaining + {id};
        remaining := remaining - {id};
      }
      assert error.None? ==> userIds - remaining == userIds;
    }
  }

  // The identities in ids have been handled, and no other was looked up.
  ghost predicate HandledSoFar(d: Delivery, ids: set<string>) { d.found.Keys == ids && AllHandled(d, ids) }

  ghost predicate AllHandled(d: Delivery, ids: set<string>) { forall id :: id in ids ==> Handled(d, id) }

  lemma OneMoreHandled(a: Delivery, b: Delivery, ids: set<string>, id: string)
    requires AllHandled(a, ids) && Continues(a, b) && Handled(b, id)
    ensures AllHandled(b, ids + {id})
  {
    forall x | x in ids ensures Handled(b, x) {
      assert Handled(a, x) && x in a.found.Keys;
    }
  }

  // The delivery began since a, was for this event, and whoever owned one of these identities
  // then has a snapshot requested since; so has every owner at b who was found by the delivery.
  ghost predicate Served(a: State, b: State, delivery: nat, eventId: string, userIds: set<string>) {
    && delivery in b.deliveries && b.deliveries[delivery].eventId == eventId && b.deliveries[delivery].userIds == userIds
    && b.deliveries[delivery].startedAt >= a.clock && Delivered(b, b.deliveries[delivery])
    && Notified(a, b, userIds, a.clock)
  }

  // Every owner of these identities has a snapshot requested after this moment.
  ghost predicate Notified(a: State, b: State, ids: set<string>, since: nat) {
    forall id, owner :: id in ids && Owns(a, owner, id) ==> Fresh(b, owner, since)
  }

  lemma CompleteIsServed(a: State, started: State, b: State, delivery: nat)
    requires Inv(a) && Inv(b) && Evolves(a, started) && Evolves(started, b)
    requires delivery in started.deliveries && started.deliveries[delivery].startedAt >= a.clock
    requires Complete(b.deliveries[delivery])
    ensures Served(a, b, delivery, started.deliveries[delivery].eventId, started.deliveries[delivery].userIds)
  {
    var d := b.deliveries[delivery];
    CompleteIsDelivered(b, delivery);
    assert DeliveryOk(b, d);
    forall id, owner | id in d.userIds && Owns(a, owner, id) ensures Fresh(b, owner, a.clock) {
      assert RowOk(a, owner) && Owns(b, owner, id);
      StaysFresh(b, owner, d.found[id].at, a.clock);
    }
  }

  lemma ServedLasts(a: State, b: State, c: State, delivery: nat, eventId: string, userIds: set<string>)
    requires Served(a, b, delivery, eventId, userIds) && Evolves(a, b) && Evolves(b, c) && c.deliveries == b.deliveries && c.rows == b.rows
    ensures Served(a, c, delivery, eventId, userIds)
  {
  }

  lemma StaysFresh(s: State, owner: string, later: nat, since: nat)
    requires since <= later
    ensures Fresh(s, owner, later) ==> Fresh(s, owner, since)
  {
  }

  // A synchronisation of the owner begun since this moment.
  ghost predicate Waiting(s: State, sync: nat, owner: string, since: nat) {
    sync in s.syncs && s.syncs[sync].owner == owner && s.syncs[sync].begunAt >= since && owner in s.rows
  }

  // A newer synchronisation has begun, or a later observation is stored.
  ghost predicate Refused(s: State, sync: nat, owner: string) {
    && sync in s.syncs && owner in s.rows && s.syncs[sync].answer.Some?
    && (s.syncs[sync].generation < s.rows[owner].generation
        || (s.rows[owner].snapshot.Some? && s.rows[owner].snapshot.value.observedAt > s.syncs[sync].answer.value.observedAt))
  }

  lemma CommittedIsFresh(s: State, sync: nat, since: nat)
    requires Inv(s) && sync in s.syncs && s.syncs[sync].begunAt >= since
    ensures s.syncs[sync].committed ==> Fresh(s, s.syncs[sync].owner, since)
  {
    assert SyncOk(s, s.syncs[sync]);
    if s.syncs[sync].committed {
      assert RowOk(s, s.syncs[sync].owner);
    }
  }
}
