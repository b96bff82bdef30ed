// Clients and the server together: sync runs of any number of clients, local edits at any
// time, requests that arrive late or twice, responses that are lost, and crashes.
module SyncSystem {
  import opened Base
  import opened SyncLog
  import opened Drift
  import opened Replica

  // A mutation on its way to the server.
  datatype Request = Request(owner: string, mutation: Mutation)

  // Where a client's sync run stands. The first pull comes before the outbox is drained, the
  // second one after it.
  datatype RunPhase =
    | Idle
    | Pulling(account: Account, token: Option<Checkpoint>, first: bool)
    | Received(account: Account, token: Option<Checkpoint>, first: bool, page: ChangePage)
    | Draining(account: Account)
    | Sending(account: Account, pending: seq<OutboxRow>)

  // `latest` is history: the newest committed edit of each record.
  datatype Client = Client(store: Store, run: RunPhase, latest: map<LocalRecord, string>)

  datatype World = World(
    log: Log,
    clients: map<nat, Client>,
    adapters: set<string>,
    issuer: string,                   // the one server all clients talk to
    edits: map<string, OutboxRow>,    // history: every edit ever queued, by its identifier
    sent: set<Request>,               // history: every mutation ever sent
    accepted: seq<Accepted>)          // history: the mutations behind the log, in order

  datatype Event =
    | SaveAccount(client: nat, account: Account)
    | BeginRun(client: nat, account: Account)
    | Fetch(client: nat, limit: nat)
    | ApplyPage(client: nat, now: int)
    | Load(client: nat, batchSize: int)
    | Accept(request: Request, sequence: nat, revision: string, createdAt: int)
    | Acknowledge(client: nat)
    | Fail(client: nat)
    | Crash(client: nat)
    | Commit(client: nat, account: Account, drafts: seq<Draft>, stamps: seq<Stamp>)
    | Seed(client: nat, account: Account, drafts: seq<Draft>, stamps: seq<Stamp>)
    | DeleteLocally(client: nat, key: AccountKey)

  const EMPTY_STORE := Store(map[], map[], [], {})

  // The server is empty and so are the clients.
  predicate Initial(w: World) {
    && w.log == [] && w.edits == map[] && w.sent == {} && w.accepted == []
    && forall id | id in w.clients.Keys :: w.clients[id] == Client(EMPTY_STORE, Idle, map[])
  }

  function MutationFrom(row: OutboxRow): Mutation {
    Mutation(row.mutationId, row.deviceId, row.collection, row.recordId, row.baseRevision, row.operation, row.payload)
  }

  function RequestFor(row: OutboxRow): Request { Request(row.account.subject, MutationFrom(row)) }

  function StoredCheckpoint(s: Store, account: AccountKey): Option<Checkpoint> {
    if account in s.syncState then s.syncState[account].checkpoint else None
  }

  // The edit itself, whatever the number of attempts to send it.
  function EditOf(row: OutboxRow): OutboxRow { row.(attemptCount := 0) }

  // ----- queueing with its history -----

  function QueueOne(c: Client, account: Account, draft: Draft, stamp: Stamp): Client {
    c.(store := Enqueue(c.store, account, draft, stamp),
       latest := c.latest[LocalRecord(account.key, draft.collection, draft.recordId) := stamp.mutationId])
  }

  datatype Queueing = Queueing(client: Client, edits: map<string, OutboxRow>)

  function QueueAll(c: Client, edits: map<string, OutboxRow>, account: Account, drafts: seq<Draft>, stamps: seq<Stamp>): Queueing
    requires |drafts| == |stamps|
  {
    if drafts == [] then Queueing(c, edits) else
      var n := |drafts| - 1;
      var before := QueueAll(c, edits, account, drafts[..n], stamps[..n]);
      Queueing(QueueOne(before.client, account, drafts[n], stamps[n]),
               before.edits[stamps[n].mutationId := NewEdit(before.client.store, account, drafts[n], stamps[n])])
  }

  // Random identifiers: never used before, and different from each other.
  ghost predicate FreshStamps(edits: map<string, OutboxRow>, stamps: seq<Stamp>) {
    && (forall i :: 0 <= i < |stamps| ==> stamps[i].mutationId !in edits)
    && (forall i, j :: 0 <= i < j < |stamps| ==> stamps[i].mutationId != stamps[j].mutationId)
  }

  // ----- the steps -----

  predicate RunOf(w: World, id: nat) { id in w.clients && !w.clients[id].run.Idle? }

  ghost predicate Answered(w: World, request: Request) {
    exists a :: a in w.accepted && a.owner == request.owner && a.mutation == request.mutation
  }

  ghost predicate Enabled(w: World, e: Event) {
    match e
    case SaveAccount(id, account) => id in w.clients && w.clients[id].run.Idle? && account.key.issuer == w.issuer
    case BeginRun(id, account) => id in w.clients && w.clients[id].run.Idle? && account.key.issuer == w.issuer
    case Fetch(id, _) => id in w.clients && w.clients[id].run.Pulling?
    case ApplyPage(id, _) => id in w.clients && w.clients[id].run.Received?
    case Load(id, limit) => id in w.clients && w.clients[id].run.Draining? && limit >= 1
    case Accept(request, sequence, revision, _) =>
      request in w.sent && sequence >= 1
      && forall i :: 0 <= i < |w.log| ==> w.log[i].sequence < sequence && w.log[i].revision != revision
    case Acknowledge(id) =>
      && id in w.clients && w.clients[id].run.Sending?
      && forall row :: row in w.clients[id].run.pending ==> Answered(w, RequestFor(row))
    case Fail(id) => RunOf(w, id)
    case Crash(id) => id in w.clients
    case Commit(id, account, drafts, stamps) =>
      && id in w.clients && |drafts| == |stamps| && account.key.issuer == w.issuer && FreshStamps(w.edits, stamps)
    case Seed(id, account, drafts, stamps) =>
      && id in w.clients && |drafts| == |stamps| && account.key.issuer == w.issuer && FreshStamps(w.edits, stamps)
    case DeleteLocally(id, _) => id in w.clients && w.clients[id].run.Idle?
  }

  function SetClient(w: World, id: nat, c: Client): World { w.(clients := w.clients[id := c]) }

  function SetRun(w: World, id: nat, run: RunPhase): World
    requires id in w.clients
  {
    SetClient(w, id, w.clients[id].(run := run))
  }

  // After a page: the next one, or what follows the pull.
  function AfterPage(run: RunPhase): RunPhase
    requires run.Received?
  {
    var account := run.account.(checkpoint := Some(run.page.checkpoint));
    if run.page.nextPageToken.Some? then Pulling(account, run.page.nextPageToken, run.first)
    else if run.first then Draining(account)
    else Idle
  }

  function Applying(w: World, c: Client, now: int): Client
    requires c.run.Received?
  {
    match Applied(c.store, w.adapters, c.run.account.key, c.run.page, now)
    case Success(store) => c.(store := store, run := AfterPage(c.run))
    case Failure(_) => c.(store := FailureRecorded(c.store, c.run.account.key), run := Idle)
  }

  function Accepting(w: World, request: Request, sequence: nat, revision: string, createdAt: int): World {
    if FindMutation(w.log, KeyOf(request.owner, request.mutation)).Some? then w else
      var a := Accepted(request.owner, request.mutation, sequence, revision, createdAt);
      w.(log := w.log + [Outcome(w.log, a)], accepted := w.accepted + [a])
  }

  function Ids(rows: seq<OutboxRow>): (ids: seq<string>)
    ensures |ids| == |rows|
  {
    seq(|rows|, i requires 0 <= i < |rows| => rows[i].mutationId)
  }

  function Requests(rows: seq<OutboxRow>): set<Request> { set row | row in rows :: RequestFor(row) }

  function Loading(w: World, id: nat, limit: int): World
    requires id in w.clients && w.clients[id].run.Draining? && limit >= 1
  {
    var c := w.clients[id];
    var pending := Pending(c.store, c.run.account.key, limit).value;
    if pending == [] then SetRun(w, id, Pulling(c.run.account, c.run.account.checkpoint, false))
    else SetRun(w, id, Sending(c.run.account, pending)).(sent := w.sent + Requests(pending))
  }

  function Saving(c: Client, account: Account): Client { c.(store := Saved(c.store, account)) }

  function Committing(w: World, id: nat, account: Account, drafts: seq<Draft>, stamps: seq<Stamp>): World
    requires id in w.clients && |drafts| == |stamps|
  {
    var c := w.clients[id];
    match Committed(c.store, w.adapters, Some(account), drafts, stamps)
    case Failure(_) => w
    case Success(_) =>
      var queued := QueueAll(c, w.edits, account, drafts, stamps);
      SetClient(w, id, queued.client).(edits := queued.edits)
  }

  // The mark was read earlier, so the transaction may also run on an account seeded since.
  function Seeding(w: World, id: nat, account: Account, drafts: seq<Draft>, stamps: seq<Stamp>): World
    requires id in w.clients && |drafts| == |stamps|
  {
    var c := w.clients[id];
    var queued := QueueAll(c, w.edits, account, drafts, stamps);
    SetClient(w, id, queued.client.(store := Seeded(c.store, account, drafts, stamps))).(edits := queued.edits)
  }

  // The tables survive a crash; the run and the set of accounts deleted by this process do not.
  function Restarted(c: Client): Client { c.(store := c.store.(deletedAccounts := {}), run := Idle) }

  function Forgetting(c: Client, account: AccountKey): Client {
    c.(store := Forgotten(c.store, account), latest := map record | record in c.latest && record.account != account :: c.latest[record])
  }

  ghost function Next(w: World, e: Event): World
    requires Enabled(w, e)
  {
    match e
    case SaveAccount(id, account) => SetClient(w, id, Saving(w.clients[id], account))
    case BeginRun(id, account) =>
      var c := Saving(w.clients[id], account);
      var token := StoredCheckpoint(c.store, account.key);
      SetClient(w, id, c.(run := Pulling(account.(checkpoint := token), token, true)))
    case Fetch(id, limit) =>
      var run := w.clients[id].run;
      var page := Response(PullPage(w.log, run.account.key.subject, Position(run.token), limit));
      SetRun(w, id, Received(run.account, run.token, run.first, page))
    case ApplyPage(id, now) => SetClient(w, id, Applying(w, w.clients[id], now))
    case Load(id, limit) => Loading(w, id, limit)
    case Accept(request, sequence, revision, createdAt) => Accepting(w, request, sequence, revision, createdAt)
    case Acknowledge(id) =>
      var c := w.clients[id];
      SetClient(w, id, c.(store := Acknowledged(c.store, c.run.account.key, Ids(c.run.pending)), run := Draining(c.run.account)))
    case Fail(id) =>
      var c := w.clients[id];
      SetClient(w, id, c.(store := FailureRecorded(c.store, c.run.account.key), run := Idle))
    case Crash(id) => SetClient(w, id, Restarted(w.clients[id]))
    case Commit(id, account, drafts, stamps) => Committing(w, id, account, drafts, stamps)
    case Seed(id, account, drafts, stamps) => Seeding(w, id, account, drafts, stamps)
    case DeleteLocally(id, account) => SetClient(w, id, Forgetting(w.clients[id], account))
  }

  // A run of the system; an event that is not possible where it stands changes nothing.
  ghost function Step(w: World, e: Event): World { if Enabled(w, e) then Next(w, e) else w }

  ghost function Run(w: World, events: seq<Event>): World {
    if events == [] then w else Step(Run(w, events[..|events| - 1]), events[|events| - 1])
  }
}
