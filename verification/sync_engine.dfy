// One run of the client's sync engine against a server that no one else writes to.
module SyncEngine {
  import opened Base
  import opened Cursor
  import opened SyncLog
  import opened SyncServer
  import opened Drift
  import opened DriftPersistence
  import opened Replica
  import opened SyncSystem
  import opened SyncDelivery

  // The owner's changes and this account's queued edits are all in collections the client knows.
  ghost predicate KnownVersions(log: Log, owner: string, adapters: set<string>) {
    forall v :: v in log && v.ownerSub == owner ==> v.collection in adapters
  }

  ghost predicate Logged(log: Log, row: OutboxRow) {
    FindMutation(log, KeyOf(row.account.subject, MutationFrom(row))).Some?
  }

  function Mutations(rows: seq<OutboxRow>): (mutations: seq<Mutation>)
    ensures |mutations| == |rows|
  {
    seq(|rows|, i requires 0 <= i < |rows| => MutationFrom(rows[i]))
  }

  // ----- the log under this client's own pushes -----

  ghost predicate GoodLog(log: Log) {
    Constrained(log) && FromOne(log)
  }

  ghost predicate FromOne(log: Log) { forall i :: 0 <= i < |log| ==> log[i].sequence >= 1 }

  lemma FindLasts(log: Log, more: Log, key: MutationKey)
    requires log <= more && FindMutation(log, key).Some?
    ensures FindMutation(more, key).Some?
  {
    var i := MutationIndex(log, key);
    assert more[i] == log[i];
  }

  // Where a client stands: its rows reflect the log up to its stored checkpoint.
  ghost predicate Stands(log: Log, s: Store, key: AccountKey) {
    && key in s.syncState && Position(s.syncState[key].checkpoint) <= LastSequence(log)
    && Reflects(s.records, log, key, Position(s.syncState[key].checkpoint))
    && RowsFromLog(s.records, log)
  }

  // New versions, whoever wrote them, leave a client standing where it stood.
  lemma {:induction false} StandsWhileGrowing(log: Log, more: Log, s: Store, key: AccountKey)
    requires GoodLog(more) && log <= more && Stands(log, s, key)
    ensures Stands(more, s, key)
  {
    if |more| > |log| {
      var n := |more| - 1;
      assert GoodLog(more[..n]);
      StandsWhileGrowing(log, more[..n], s, key);
      assert more == more[..n] + [more[n]];
      ReflectsAppend(s.records, more[..n], more[n], key, Position(s.syncState[key].checkpoint));
      RowsGrow(s.records, more[..n], more[n]);
    } else {
      assert more == log;
    }
  }

  lemma {:induction false} SequencesStart(log: Log, owner: string, mutations: seq<Mutation>, draws: seq<Draw>)
    requires |mutations| == |draws| && FromOne(log)
    ensures FromOne(PushedAll(log, owner, mutations, draws))
  {
    if mutations != [] {
      var n := |mutations| - 1;
      SequencesStart(log, owner, mutations[..n], draws[..n]);
      NextFromOne(PushedAll(log, owner, mutations[..n], draws[..n]), owner, mutations[n], draws[n]);
    }
  }

  lemma NextFromOne(log: Log, owner: string, m: Mutation, draw: Draw)
    requires FromOne(log)
    ensures FromOne(Pushed(log, owner, m, draw))
  {
  }

  // What a batch adds are versions of the owner in the collections of its mutations.
  lemma {:induction false} BatchIsKnown(log: Log, owner: string, mutations: seq<Mutation>, draws: seq<Draw>, adapters: set<string>)
    requires |mutations| == |draws| && KnownVersions(log, owner, adapters)
    requires forall m :: m in mutations ==> m.collection in adapters
    ensures KnownVersions(PushedAll(log, owner, mutations, draws), owner, adapters)
  {
    if mutations != [] {
      var n := |mutations| - 1;
      assert mutations[n] in mutations && forall m :: m in mutations[..n] ==> m in mutations;
      BatchIsKnown(log, owner, mutations[..n], draws[..n], adapters);
    }
  }

  // ----- drawn revisions -----

  // The next draws of a random source.
  function Draws(draw: nat -> Draw, from: nat, n: nat): (draws: seq<Draw>)
    ensures |draws| == n
    decreases n
  {
    if n == 0 then [] else [draw(from)] + Draws(draw, from + 1, n - 1)
  }

  // Later draws never repeat each other or a revision of the log.
  ghost predicate Random(log: Log, draw: nat -> Draw, from: nat) {
    && (forall i, j :: from <= i < j ==> draw(i).revision != draw(j).revision)
    && (forall i :: from <= i ==> NamesNot(log, 0, {draw(i).revision}))
  }

  ghost predicate DrawnBetween(draw: nat -> Draw, from: nat, to: nat, revision: string) {
    exists i :: from <= i < to && draw(i).revision == revision
  }

  lemma {:induction false} NamesNotUnion(rows: seq<Version>, from: nat, a: set<string>, b: set<string>)
    requires NamesNot(rows, from, a) && NamesNot(rows, from, b)
    ensures NamesNot(rows, from, a + b)
  {
    if |rows| > from {
      NamesNotUnion(rows[..|rows| - 1], from, a, b);
    }
  }

  lemma {:induction false} NamesNotNothing(rows: seq<Version>, from: nat)
    ensures NamesNot(rows, from, {})
  {
    if |rows| > from {
      NamesNotNothing(rows[..|rows| - 1], from);
    }
  }

  lemma {:induction false} DrawsAreFresh(log: Log, draw: nat -> Draw, from: nat, n: nat)
    requires Random(log, draw, from)
    ensures var draws := Draws(draw, from, n);
      && Distinct(draws) && NamesNot(log, 0, Revisions(draws))
      && forall revision :: revision in Revisions(draws) ==> DrawnBetween(draw, from, from + n, revision)
    decreases n
  {
    if n == 0 {
      NamesNotNothing(log, 0);
    } else {
      var rest := Draws(draw, from + 1, n - 1);
      DrawsAreFresh(log, draw, from + 1, n - 1);
      NamesNotUnion(log, 0, {draw(from).revision}, Revisions(rest));
      assert Draws(draw, from, n)[1..] == rest;
      forall revision | revision in Revisions(Draws(draw, from, n)) ensures DrawnBetween(draw, from, from + n, revision) {
        if revision in Revisions(rest) {
          assert DrawnBetween(draw, from + 1, from + n, revision);
        }
      }
    }
  }

  lemma {:induction false} RevisionsOfPrefix(draws: seq<Draw>, n: nat)
    requires n < |draws|
    ensures Revisions(draws[..n]) <= Revisions(draws) && draws[n].revision in Revisions(draws)
  {
    if n > 0 {
      RevisionsOfPrefix(draws[1..], n - 1);
      assert draws[..n][1..] == draws[1..][..n - 1];
    }
  }

  lemma {:induction false} BatchNamesNot(log: Log, owner: string, mutations: seq<Mutation>, draws: seq<Draw>, revision: string)
    requires |mutations| == |draws| && NamesNot(log, 0, {revision}) && revision !in Revisions(draws)
    ensures NamesNot(PushedAll(log, owner, mutations, draws), 0, {revision})
  {
    if mutations != [] {
      var n := |mutations| - 1;
      RevisionsOfPrefix(draws, n);
      BatchNamesNot(log, owner, mutations[..n], draws[..n], revision);
      var before := PushedAll(log, owner, mutations[..n], draws[..n]);
      if FindMutation(before, KeyOf(owner, mutations[n])).None? {
        NamesNotAppend(before, Outcome(before, Accepted(owner, mutations[n], NextSequence(before), draws[n].revision, draws[n].createdAt)), 0, {revision});
      }
    }
  }

  lemma StaysRandom(log: Log, owner: string, mutations: seq<Mutation>, draw: nat -> Draw, from: nat)
    requires Random(log, draw, from)
    ensures Random(PushedAll(log, owner, mutations, Draws(draw, from, |mutations|)), draw, from + |mutations|)
  {
    var n := |mutations|;
    DrawsAreFresh(log, draw, from, n);
    forall i | from + n <= i ensures NamesNot(PushedAll(log, owner, mutations, Draws(draw, from, n)), 0, {draw(i).revision}) {
      BatchNamesNot(log, owner, mutations, Draws(draw, from, n), draw(i).revision);
    }
  }

  // ----- pages -----

  lemma PageIsApplicable(log: Log, owner: string, after: nat, limit: nat, adapters: set<string>)
    requires GoodLog(log) && KnownVersions(log, owner, adapters)
    ensures Applicable(adapters, Response(PullPage(log, owner, after, limit)).items)
  {
    ConstrainedIsWellFormed(log);
    PageIsPrefix(log, owner, after, limit);
    OwnedContents(log, owner, after);
    var page := PullPage(log, owner, after, limit);
    forall i | 0 <= i < |page.changes| ensures page.changes[i].collection in adapters {
      assert page.changes[i] in Owned(log, owner, after);
    }
  }

  lemma StandsAfterPage(log: Log, s: Store, key: AccountKey, adapters: set<string>, limit: nat, now: int)
    requires GoodLog(log) && Stands(log, s, key)
    requires var page := Response(PullPage(log, key.subject, Position(s.syncState[key].checkpoint), limit));
      Applied(s, adapters, key, page, now).Success?
    ensures var page := Response(PullPage(log, key.subject, Position(s.syncState[key].checkpoint), limit));
      var after := Applied(s, adapters, key, page, now).value;
      Stands(log, after, key) && after.syncState[key].checkpoint == Some(page.checkpoint)
  {
    ConstrainedIsWellFormed(log);
    var token := s.syncState[key].checkpoint;
    var page := Response(PullPage(log, key.subject, Position(token), limit));
    FetchedPageOk(log, key.subject, Position(token), limit);
    PageMovesReplica(s.records, log, key, Position(token), page.checkpoint.sequence);
    UpsertedFromLog(log, s.records, key, Position(token), page.checkpoint.sequence);
  }

  lemma PageAdvances(log: Log, owner: string, after: nat, limit: nat)
    requires GoodLog(log) && limit >= 1
    ensures var page := PullPage(log, owner, after, limit);
      if page.hasMore then |Owned(log, owner, page.cursor)| < |Owned(log, owner, after)| else Owned(log, owner, page.cursor) == []
  {
    ConstrainedIsWellFormed(log);
    PageShortens(log, owner, after, limit);
  }

  // The server's use cases as a client calls them, on a server that has no other caller.
  class Api {
    const repository: SyncRepository
    // The random revisions and the clock, push by push.
    const draw: nat -> Draw
    var drawn: nat

    constructor (repository: SyncRepository, draw: nat -> Draw)
      ensures this.repository == repository && this.draw == draw && drawn == 0
    {
      this.repository, this.draw, drawn := repository, draw, 0;
    }

    ghost predicate Valid()
      reads this, repository
    {
      repository.Valid() && repository.others == [] && GoodLog(repository.rows) && Random(repository.rows, draw, drawn)
    }

    // The page after a token; the server cannot issue a cursor beyond the safe integers.
    method Pull(owner: string, token: Option<Checkpoint>, pageSize: nat) returns (answer: Result<ChangePage, CursorError>)
      ensures answer.Success? ==> answer.value == Response(PullPage(repository.rows, owner, Position(token), pageSize))
      ensures answer.Failure? ==>
        Position(token) > MAX_SAFE_INTEGER || PullPage(repository.rows, owner, Position(token), pageSize).cursor > MAX_SAFE_INTEGER
    {
      answer := Failure(UnsafeSequence);
      var cursor := if token.Some? then EncodeCursor(token.value.sequence) else Success("");
      if cursor.Success? {
        if token.Some? {
          CursorRoundTrip(token.value.sequence);
        }
        var pulled := repository.PullChanges(owner, Some(cursor.value), pageSize);
        answer := if pulled.Failure? then Failure(pulled.error) else
          Success(Response(Page(pulled.value.changes, DecodeCursor(Some(pulled.value.cursor)).value, pulled.value.hasMore)));
      }
    }

    // Pushes a batch; the answers name its mutations, and all of them are stored.
    method Push(owner: string, mutations: seq<Mutation>) returns (answered: seq<string>)
      requires Valid()
      modifies this`drawn, repository
      ensures Valid() && old(repository.rows) <= repository.rows
      ensures repository.rows == PushedAll(old(repository.rows), owner, mutations, Draws(draw, old(drawn), |mutations|))
      ensures |answered| == |mutations| && forall i :: 0 <= i < |mutations| ==> answered[i] == mutations[i].mutationId
      ensures forall i :: 0 <= i < |mutations| ==> FindMutation(repository.rows, KeyOf(owner, mutations[i])).Some?
    {
      ghost var before := repository.rows;
      var draws := Draws(draw, drawn, |mutations|);
      DrawsAreFresh(before, draw, drawn, |mutations|);
      StaysRandom(before, owner, mutations, draw, drawn);
      SequencesStart(before, owner, mutations, draws);
      drawn := drawn + |mutations|;
      answered := PushDrawn(owner, mutations, draws);
    }

    method PushDrawn(owner: string, mutations: seq<Mutation>, draws: seq<Draw>) returns (answered: seq<string>)
      requires repository.Valid() && repository.others == [] && |draws| == |mutations|
      requires NamesNot(repository.rows, 0, Revisions(draws)) && Distinct(draws)
      modifies repository
      ensures repository.Valid() && repository.others == [] && old(repository.rows) <= repository.rows
      ensures repository.rows == PushedAll(old(repository.rows), owner, mutations, draws)
      ensures |answered| == |mutations| && forall i :: 0 <= i < |mutations| ==> answered[i] == mutations[i].mutationId
      ensures forall i :: 0 <= i < |mutations| ==> FindMutation(repository.rows, KeyOf(owner, mutations[i])).Some?
    {
      repository.reserved := repository.reserved + Revisions(draws) + Bases(mutations);
      var answer := repository.PushMutations(owner, mutations, None, draws);
      AnswersName(repository.rows, answer.value, owner, mutations);
      answered := AnsweredIds(answer.value);
    }
  }

  function AnsweredIds(results: seq<MutationResult>): (ids: seq<string>)
    ensures |ids| == |results|
  {
    seq(|results|, i requires 0 <= i < |results| => results[i].mutationId)
  }

  lemma AnswersName(rows: seq<Version>, results: seq<MutationResult>, owner: string, mutations: seq<Mutation>)
    requires exists from: nat :: AllAnswered(rows, results, from, owner, mutations)
    ensures |results| == |mutations|
    ensures forall i :: 0 <= i < |mutations| ==>
      results[i].mutationId == mutations[i].mutationId && FindMutation(rows, KeyOf(owner, mutations[i])).Some?
  {
    var from: nat :| AllAnswered(rows, results, from, owner, mutations);
    forall i | 0 <= i < |mutations|
      ensures results[i].mutationId == mutations[i].mutationId && FindMutation(rows, KeyOf(owner, mutations[i])).Some?
    {
      assert Answers(rows, results[i], from, owner, mutations[i]);
    }
  }

  // The versions the mutations were made on.
  function Bases(mutations: seq<Mutation>): set<string> {
    set m | m in mutations && m.baseRevision.Some? :: m.baseRevision.value
  }

  // What a run needs to start with: a log under the table's constraints and, against it, the
  // tables a client has in every reachable state (see SyncReadiness.ReachableIsReady).
  ghost predicate Startable(log: Log, s: Store, adapters: set<string>, key: AccountKey) {
    && GoodLog(log) && SyncOk(log, s.syncState, s.records) && RowsFromLog(s.records, log)
    && OutboxOk(s.outbox) && KnownEdits(s.outbox, key, adapters) && KnownVersions(log, key.subject, adapters)
  }

  class Engine {
    const persistence: Persistence
    const api: Api
    const pageSize: nat
    const batchSize: nat

    constructor (persistence: Persistence, api: Api, pageSize: nat, batchSize: nat)
      ensures this.persistence == persistence && this.api == api && this.pageSize == pageSize && this.batchSize == batchSize
    {
      this.persistence, this.api, this.pageSize, this.batchSize := persistence, api, pageSize, batchSize;
    }

    ghost predicate Valid()
      reads this, api, api.repository
    {
      api.Valid() && pageSize >= 1 && batchSize >= 1
    }

    ghost function ServerLog(): Log
      reads this, api, api.repository
    {
      api.repository.rows
    }

    // What the run relies on: the client stands somewhere in the log and knows the collections.
    ghost predicate Ready(key: AccountKey)
      reads this, api, api.repository, persistence
    {
      && Valid() && Stands(ServerLog(), persistence.View(), key) && KnownVersions(ServerLog(), key.subject, persistence.adapters)
    }

    // Pulls page after page until the server has no more.
    method PullAll(account: Account, now: int) returns (pulled: Result<Account, CursorError>)
      requires Ready(account.key) && persistence.syncState[account.key].checkpoint == account.checkpoint
      modifies persistence`records, persistence`syncState
      ensures Ready(account.key)
      ensures pulled.Success? ==>
        && pulled.value == account.(checkpoint := persistence.syncState[account.key].checkpoint)
        && Owned(ServerLog(), account.key.subject, Position(pulled.value.checkpoint)) == []
      ensures pulled.Failure? ==> LastSequence(ServerLog()) > MAX_SAFE_INTEGER
    {
      pulled := Success(account);
      var token := account.checkpoint;
      var more := true;
      while more
        invariant Ready(account.key)
        invariant pulled.Success? ==> pulled.value == account.(checkpoint := persistence.syncState[account.key].checkpoint)
        invariant more ==> pulled.Success? && persistence.syncState[account.key].checkpoint == token
        invariant pulled.Failure? ==> LastSequence(ServerLog()) > MAX_SAFE_INTEGER
        invariant !more && pulled.Success? ==> Owned(ServerLog(), account.key.subject, Position(pulled.value.checkpoint)) == []
        decreases more, |Owned(ServerLog(), account.key.subject, Position(token))|
      {
        var page := PullPage(account.key, token, now);
        PageAdvances(ServerLog(), account.key.subject, Position(token), pageSize);
        more := false;
        if page.Failure? {
          pulled := Failure(page.error);
        } else {
          pulled := Success(account.(checkpoint := Some(page.value.checkpoint)));
          more := page.value.nextPageToken.Some?;
          if more {
            token := page.value.nextPageToken;
          }
        }
      }
    }

    // Fetches one page and applies it.
    method PullPage(key: AccountKey, token: Option<Checkpoint>, now: int) returns (page: Result<ChangePage, CursorError>)
      requires Ready(key) && persistence.syncState[key].checkpoint == token
      modifies persistence`records, persistence`syncState
      ensures Ready(key)
      ensures page.Success? ==>
        page.value == Response(SyncLog.PullPage(ServerLog(), key.subject, Position(token), pageSize))
        && persistence.syncState[key].checkpoint == Some(page.value.checkpoint)
      ensures page.Failure? ==> LastSequence(ServerLog()) > MAX_SAFE_INTEGER
    {
      ghost var before := persistence.View();
      ConstrainedIsWellFormed(ServerLog());
      FetchedPageOk(ServerLog(), key.subject, Position(token), pageSize);
      page := api.Pull(key.subject, token, pageSize);
      if page.Success? {
        PageIsApplicable(ServerLog(), key.subject, Position(token), pageSize, persistence.adapters);
        var error := persistence.ApplyPull(key, page.value, now);
        StandsAfterPage(ServerLog(), before, key, persistence.adapters, pageSize, now);
      }
    }

    // Sends pending edits batch after batch until none is left.
    method Drain(account: AccountKey)
      requires Ready(account) && OutboxOk(persistence.outbox) && KnownEdits(persistence.outbox, account, persistence.adapters)
      modifies persistence`outbox, api`drawn, api.repository
      ensures Ready(account) && OutboxOk(persistence.outbox) && old(ServerLog()) <= ServerLog()
      ensures OfAccount(persistence.outbox, account) == []
      ensures Delivered(old(persistence.outbox), persistence.outbox, ServerLog(), account)
    {
      ghost var initial := persistence.outbox;
      var more := true;
      while more
        invariant Ready(account) && OutboxOk(persistence.outbox) && old(ServerLog()) <= ServerLog()
        invariant KnownEdits(persistence.outbox, account, persistence.adapters)
        invariant Delivered(initial, persistence.outbox, ServerLog(), account)
        invariant !more ==> OfAccount(persistence.outbox, account) == []
        decreases more, |OfAccount(persistence.outbox, account)|
      {
        more := SendBatch(account, initial);
      }
    }

    // Loads a batch, pushes it and removes what was answered; whether there was one.
    method SendBatch(account: AccountKey, ghost initial: seq<OutboxRow>) returns (more: bool)
      requires Ready(account) && OutboxOk(persistence.outbox) && KnownEdits(persistence.outbox, account, persistence.adapters)
      requires Delivered(initial, persistence.outbox, ServerLog(), account)
      modifies persistence`outbox, api`drawn, api.repository
      ensures Ready(account) && OutboxOk(persistence.outbox) && old(ServerLog()) <= ServerLog()
      ensures KnownEdits(persistence.outbox, account, persistence.adapters)
      ensures Delivered(initial, persistence.outbox, ServerLog(), account)
      ensures if more then |OfAccount(persistence.outbox, account)| < |OfAccount(old(persistence.outbox), account)|
              else OfAccount(persistence.outbox, account) == []
    {
      var pending := persistence.LoadPending(account, batchSize);
      more := pending.value != [];
      if more {
        ghost var before, log := persistence.View(), ServerLog();
        PendingKnown(before, account, batchSize, persistence.adapters);
        BatchIsKnown(log, account.subject, Mutations(pending.value), Draws(api.draw, api.drawn, |pending.value|), persistence.adapters);
        var answered := api.Push(account.subject, Mutations(pending.value));
        StandsWhileGrowing(log, ServerLog(), before, account);
        persistence.Acknowledge(account, answered);
        BatchIsDelivered(initial, before, account, batchSize, answered, log, ServerLog());
        BatchShortens(before, account, batchSize, answered);
      }
    }

    // One whole run, from any state the system can reach: pull, drain the outbox, pull again.
    // It fails only where the server has run out of safe sequence numbers.
    method Synchronize(account: Account, now: int) returns (current: Result<Account, CursorError>)
      requires Valid() && Startable(ServerLog(), persistence.View(), persistence.adapters, account.key)
      modifies persistence`syncState, persistence`records, persistence`outbox, api`drawn, api.repository
      ensures old(ServerLog()) <= ServerLog()
      ensures current.Failure? ==> LastSequence(ServerLog()) > MAX_SAFE_INTEGER
      ensures current.Success? ==>
        && OfAccount(persistence.outbox, account.key) == []
        && Delivered(old(persistence.outbox), persistence.outbox, ServerLog(), account.key)
        && Ready(account.key) && current.value.checkpoint == persistence.syncState[account.key].checkpoint
        && AtEnd(ServerLog(), account.key.subject, Position(current.value.checkpoint))
        && MirrorsLog(persistence.records, ServerLog(), account.key)
    {
      SavedStands(ServerLog(), persistence.View(), account);
      var saved := persistence.SaveAccount(account);
      current := PullAll(saved, now);
      if current.Success? {
        Drain(account.key);
        current := PullAll(current.value, now);
      }
      if current.Failure? {
        persistence.RecordFailure(account.key);
      } else {
        EndIsReached(ServerLog(), account.key.subject, Position(current.value.checkpoint));
        EndMirrors(ServerLog(), persistence.View(), account.key);
      }
    }
  }

  ghost predicate AtEnd(log: Log, owner: string, position: nat) {
    forall v :: v in log && v.ownerSub == owner ==> v.sequence <= position
  }

  // Every row of the account is that of the record's last version, and there are no others.
  ghost predicate MirrorsLog(records: map<LocalRecord, RecordRow>, log: Log, account: AccountKey) {
    forall record: LocalRecord :: record.account == account ==>
      RowAt(records, record) == CurrentRow(log, record)
  }

  lemma SavedStands(log: Log, s: Store, account: Account)
    requires GoodLog(log) && SyncOk(log, s.syncState, s.records) && RowsFromLog(s.records, log)
    ensures Stands(log, Saved(s, account), account.key)
  {
    if Saved(s, account).syncState[account.key].checkpoint.None? {
      ReflectsFromStart(s.records, log, account.key);
    }
  }

  lemma EndIsReached(log: Log, owner: string, position: nat)
    requires GoodLog(log) && Owned(log, owner, position) == []
    ensures AtEnd(log, owner, position)
  {
    ConstrainedIsWellFormed(log);
    OwnedContents(log, owner, position);
  }

  lemma EndMirrors(log: Log, s: Store, account: AccountKey)
    requires Stands(log, s, account) && AtEnd(log, account.subject, Position(s.syncState[account].checkpoint))
    ensures MirrorsLog(s.records, log, account)
  {
    forall record: LocalRecord | record.account == account ensures RowAt(s.records, record) == CurrentRow(log, record) {
      FullyPulledRow(s.records, log, record, Position(s.syncState[account].checkpoint));
    }
  }

  ghost predicate KnownEdits(outbox: seq<OutboxRow>, account: AccountKey, adapters: set<string>) {
    forall row :: row in outbox && row.account == account ==> row.collection in adapters
  }

  // Edits leave the outbox only into the log, and only those of this account.
  ghost predicate Delivered(before: seq<OutboxRow>, outbox: seq<OutboxRow>, log: Log, account: AccountKey) {
    && (forall row :: row in outbox ==> row in before)
    && (forall row :: row in before ==> row in outbox || (row.account == account && Logged(log, row)))
  }

  lemma PendingKnown(s: Store, account: AccountKey, limit: int, adapters: set<string>)
    requires limit >= 1 && KnownEdits(s.outbox, account, adapters)
    ensures forall m :: m in Mutations(Pending(s, account, limit).value) ==> m.collection in adapters
  {
    PendingRows(s, account, limit);
    var pending := Pending(s, account, limit).value;
    forall m | m in Mutations(pending) ensures m.collection in adapters {
      var i :| 0 <= i < |pending| && Mutations(pending)[i] == m;
      assert pending[i] in pending;
    }
  }

  // Acknowledging a batch shortens what is left to send.
  lemma {:induction false} ExceptShortens(rows: seq<OutboxRow>, id: string, account: AccountKey)
    ensures |OfAccount(Except(rows, ByIdOf(id, account)), account)| <= |OfAccount(rows, account)|
    ensures (exists row :: row in rows && Hits(ByIdOf(id, account), row)) ==>
      |OfAccount(Except(rows, ByIdOf(id, account)), account)| < |OfAccount(rows, account)|
  {
    if rows != [] {
      var n := |rows| - 1;
      ExceptShortens(rows[..n], id, account);
      assert forall row :: row in rows <==> row in rows[..n] || row == rows[n];
      var rest := Except(rows[..n], ByIdOf(id, account));
      assert (rest + [rows[n]])[..|rest|] == rest;
    }
  }

  lemma {:induction false} AcknowledgedShortens(s: Store, account: AccountKey, ids: seq<string>)
    ensures |OfAccount(Acknowledged(s, account, ids).outbox, account)| <= |OfAccount(s.outbox, account)|
    ensures ids != [] && (exists row :: row in s.outbox && Hits(ByIdOf(ids[0], account), row)) ==>
      |OfAccount(Acknowledged(s, account, ids).outbox, account)| < |OfAccount(s.outbox, account)|
  {
    if ids != [] {
      var n := |ids| - 1;
      AcknowledgedShortens(s, account, ids[..n]);
      ExceptShortens(Acknowledged(s, account, ids[..n]).outbox, ids[n], account);
    }
  }

  // An acknowledged edit is one of the batch, and it is in the log.
  lemma AnsweredIsLogged(s: Store, account: AccountKey, limit: int, answered: seq<string>, log: Log, row: OutboxRow)
    requires limit >= 1 && UniqueIds(s.outbox)
    requires var pending := Pending(s, account, limit).value;
      && |answered| == |pending| && (forall i :: 0 <= i < |pending| ==> answered[i] == Mutations(pending)[i].mutationId)
      && (forall i :: 0 <= i < |pending| ==> FindMutation(log, KeyOf(account.subject, Mutations(pending)[i])).Some?)
    requires row in s.outbox && row.account == account && row.mutationId in answered
    ensures Logged(log, row)
  {
    PendingRows(s, account, limit);
    var pending := Pending(s, account, limit).value;
    var i :| 0 <= i < |answered| && answered[i] == row.mutationId;
    assert pending[i] in pending;
  }

  lemma LoggedLasts(log: Log, more: Log, row: OutboxRow)
    requires log <= more && Logged(log, row)
    ensures Logged(more, row)
  {
    FindLasts(log, more, KeyOf(row.account.subject, MutationFrom(row)));
  }

  lemma BatchIsDelivered(initial: seq<OutboxRow>, s: Store, account: AccountKey, limit: int, answered: seq<string>, log: Log, more: Log)
    requires limit >= 1 && OutboxOk(s.outbox) && log <= more && Delivered(initial, s.outbox, log, account)
    requires var pending := Pending(s, account, limit).value;
      && |answered| == |pending| && (forall i :: 0 <= i < |pending| ==> answered[i] == Mutations(pending)[i].mutationId)
      && (forall i :: 0 <= i < |pending| ==> FindMutation(more, KeyOf(account.subject, Mutations(pending)[i])).Some?)
    ensures var after := Acknowledged(s, account, answered);
      && Delivered(initial, after.outbox, more, account) && OutboxOk(after.outbox) && after == s.(outbox := after.outbox)
      && (forall row :: row in after.outbox ==> row in s.outbox)
  {
    AcknowledgedRemoves(s, account, answered);
    var after := Acknowledged(s, account, answered);
    forall row | row in initial ensures row in after.outbox || (row.account == account && Logged(more, row)) {
      if row !in s.outbox {
        LoggedLasts(log, more, row);
      } else if row !in after.outbox {
        AnsweredIsLogged(s, account, limit, answered, more, row);
      }
    }
  }

  lemma BatchShortens(s: Store, account: AccountKey, limit: int, answered: seq<string>)
    requires limit >= 1 && Pending(s, account, limit).value != []
    requires var pending := Pending(s, account, limit).value;
      |answered| == |pending| && forall i :: 0 <= i < |pending| ==> answered[i] == Mutations(pending)[i].mutationId
    ensures |OfAccount(Acknowledged(s, account, answered).outbox, account)| < |OfAccount(s.outbox, account)|
  {
    PendingRows(s, account, limit);
    var pending := Pending(s, account, limit).value;
    assert pending[0] in pending && Hits(ByIdOf(answered[0], account), pending[0]);
    AcknowledgedShortens(s, account, answered);
  }
}
