// A client between two runs can always start one: what the engine's run needs holds in every
// reachable state of the system.
module SyncReadiness {
  import opened Base
  import opened SyncLog
  import opened SyncServer
  import opened Drift
  import opened Replica
  import opened SyncSystem
  import opened SyncDelivery
  import opened SyncEngine

  // Adapters seed only collections the client knows; the client itself does not check it.
  ghost predicate SeedsKnown(adapters: set<string>, events: seq<Event>) {
    forall i :: 0 <= i < |events| && events[i].Seed? ==> Known(adapters, events[i].drafts)
  }

  ghost predicate EditsKnown(adapters: set<string>, edits: map<string, OutboxRow>) {
    forall id :: id in edits ==> edits[id].collection in adapters
  }

  // The table's constraints hold over all records, and every edit is of a known collection.
  ghost predicate Global(w: World) { Constrained(w.log) && EditsKnown(w.adapters, w.edits) }

  lemma {:induction false} QueueAllKnown(c: Client, edits: map<string, OutboxRow>, account: Account, drafts: seq<Draft>,
                                         stamps: seq<Stamp>, adapters: set<string>)
    requires |drafts| == |stamps| && EditsKnown(adapters, edits) && Known(adapters, drafts)
    ensures EditsKnown(adapters, QueueAll(c, edits, account, drafts, stamps).edits)
  {
    if drafts != [] {
      var n := |drafts| - 1;
      QueueAllKnown(c, edits, account, drafts[..n], stamps[..n], adapters);
      assert drafts[n].collection in adapters;
    }
  }

  lemma AcceptKeepsGlobal(w: World, request: Request, sequence: nat, revision: string, createdAt: int)
    requires Global(w) && Enabled(w, Accept(request, sequence, revision, createdAt))
    ensures Global(Accepting(w, request, sequence, revision, createdAt))
    ensures Accepting(w, request, sequence, revision, createdAt).adapters == w.adapters
  {
    if FindMutation(w.log, KeyOf(request.owner, request.mutation)).None? {
      var row := Outcome(w.log, Accepted(request.owner, request.mutation, sequence, revision, createdAt));
      assert (w.log + [row])[..|w.log|] == w.log;
    }
  }

  lemma QueueKeepsGlobal(w: World, e: Event)
    requires Global(w) && Enabled(w, e) && (e.Commit? || (e.Seed? && Known(w.adapters, e.drafts)))
    ensures Global(Next(w, e)) && Next(w, e).adapters == w.adapters
  {
    if e.Seed? || Committed(w.clients[e.client].store, w.adapters, Some(e.account), e.drafts, e.stamps).Success? {
      QueueAllKnown(w.clients[e.client], w.edits, e.account, e.drafts, e.stamps, w.adapters);
    }
  }

  lemma OtherKeepsGlobal(w: World, e: Event)
    requires Enabled(w, e) && !e.Accept? && !e.Commit? && !e.Seed?
    ensures Next(w, e).log == w.log && Next(w, e).edits == w.edits && Next(w, e).adapters == w.adapters
  {
  }

  lemma StepKeepsGlobal(w: World, e: Event)
    requires Global(w) && (e.Seed? ==> Known(w.adapters, e.drafts))
    ensures Global(Step(w, e)) && Step(w, e).adapters == w.adapters
  {
    if Enabled(w, e) {
      match e
      case Accept(request, sequence, revision, createdAt) => AcceptKeepsGlobal(w, request, sequence, revision, createdAt);
      case Commit(_, _, _, _) => QueueKeepsGlobal(w, e);
      case Seed(_, _, _, _) => QueueKeepsGlobal(w, e);
      case _ => OtherKeepsGlobal(w, e);
    }
  }

  lemma {:induction false} RunKeepsGlobal(w: World, events: seq<Event>)
    requires Global(w) && SeedsKnown(w.adapters, events)
    ensures Global(Run(w, events)) && Run(w, events).adapters == w.adapters
  {
    if events != [] {
      var n := |events| - 1;
      RunKeepsGlobal(w, events[..n]);
      StepKeepsGlobal(Run(w, events[..n]), events[n]);
    }
  }

  // Every version is of an edit some client queued.
  lemma LoggedIsKnown(w: World, v: Version)
    requires Inv(w) && EditsKnown(w.adapters, w.edits) && v in w.log
    ensures v.collection in w.adapters
  {
    var i :| 0 <= i < |w.log| && w.log[i] == v;
    SerialAt(w.accepted, i);
    assert w.accepted[i] in w.accepted;
    var q := Request(w.accepted[i].owner, w.accepted[i].mutation);
    assert q in w.sent && q == RequestFor(w.edits[q.mutation.mutationId]);
  }

  lemma QueuedIsKnown(w: World, id: nat, row: OutboxRow)
    requires Inv(w) && EditsKnown(w.adapters, w.edits) && id in w.clients && row in w.clients[id].store.outbox
    ensures row.collection in w.adapters
  {
    assert ClientOk(w.log, w.accepted, w.edits, w.clients[id]);
    assert IsEdit(w.edits, row);
  }

  lemma GlobalIsStartable(w: World, id: nat, key: AccountKey)
    requires Inv(w) && Global(w) && id in w.clients
    ensures Startable(w.log, w.clients[id].store, w.adapters, key)
  {
    assert ClientOk(w.log, w.accepted, w.edits, w.clients[id]);
    forall v | v in w.log && v.ownerSub == key.subject ensures v.collection in w.adapters {
      LoggedIsKnown(w, v);
    }
    forall row | row in w.clients[id].store.outbox && row.account == key ensures row.collection in w.adapters {
      QueuedIsKnown(w, id, row);
    }
  }

  // After any run of clients and server, whatever was interrupted, any client can start a
  // synchronisation of any account: everything the engine's run asks for holds.
  lemma {:induction false} ReachableIsReady(w: World, events: seq<Event>, id: nat, key: AccountKey)
    requires Initial(w) && SeedsKnown(w.adapters, events) && id in Run(w, events).clients
    ensures var s := Run(w, events);
      Startable(s.log, s.clients[id].store, s.adapters, key)
  {
    InitialInv(w);
    RunKeepsInv(w, events);
    RunKeepsGlobal(w, events);
    GlobalIsStartable(Run(w, events), id, key);
  }
}
