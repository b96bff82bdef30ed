// The account use cases as sequences of statements, with everything else in the database
// happening at each await, and a billing provider that may refuse or answer too late.
module AccountService {
  import opened Base
  import opened Texts
  import opened Accounts

  datatype Principal = Principal(sub: string, accountId: Option<string>)

  datatype SessionInput = SessionInput(deviceId: string, register: bool, accountId: Option<string>)

  // The random identifiers of one call.
  datatype Draws = Draws(accountId: string, tokenHash: string)

  datatype AccountError =
    | AccountDeleted | AccountDeleting | AccountExists | RegistrationRequired
    | SessionInvalid | SessionRequired | NotPersisted | AccountMissing | WriteAborted

  // An external deletion succeeds, is refused, or happens without its answer arriving.
  datatype Answer = Done | Refused | Lost

  datatype CleanupError = MissingAccount | ProductFailed | ProviderFailed

  lemma RunOneMore(s: State, events: seq<Event>, e: Event)
    ensures Run(s, events + [e]) == Step(Run(s, events), e)
  {
    assert (events + [e])[..|events|] == events;
  }

  // No token of this set is issued meanwhile.
  ghost predicate Unissued(a: State, b: State, tokens: set<string>) {
    forall h :: h in tokens && h !in a.issued ==> h !in b.issued
  }

  lemma OthersIssueOthers(s: State, e: Event, tokens: set<string>)
    requires !(e.SaveSession? && e.hash in tokens)
    ensures Unissued(s, Step(s, e), tokens)
  {
  }

  // The pinned account of a renewal; an empty text pins nothing.
  function Pinned(input: SessionInput): Option<string> {
    if input.accountId.Some? && input.accountId.value != "" then input.accountId else None
  }

  class Service {
    var db: State
    // Everything that happened to the database since the start, by whomever.
    ghost var trace: seq<Event>
    ghost const start: State
    // What other calls do at each point where this one awaits; any script is possible.
    var others: seq<seq<Event>>
    // Session tokens that only this process draws.
    const tokens: set<string>
    // How external systems answer, request by request.
    const answers: nat -> Answer
    var asked: nat

    ghost predicate Valid()
      reads this
    {
      Initial(start) && db == Run(start, trace)
    }

    // Whatever happened, the database keeps its invariant.
    lemma Sound()
      requires Valid()
      ensures Inv(db)
    {
      InitialInv(start);
      RunKeepsInv(start, trace);
    }

    constructor (db: State, others: seq<seq<Event>>, tokens: set<string>, answers: nat -> Answer)
      requires Initial(db)
      ensures Valid() && this.db == db && this.others == others && this.tokens == tokens && this.answers == answers
    {
      this.db, this.others, this.tokens, this.answers, asked := db, others, tokens, answers, 0;
      trace, start := [], db;
    }

    // One statement of this call.
    method Execute(e: Event)
      requires Valid() && Enabled(db, e)
      modifies this`db, this`trace
      ensures Valid() && db == Next(old(db), e) && Evolves(old(db), db)
      ensures trace == old(trace) + [e]
    {
      Sound();
      StepEvolves(db, e);
      RunOneMore(start, trace, e);
      db := Next(db, e);
      trace := trace + [e];
    }

    // One statement of another call, which draws other session tokens.
    method ExecuteOther(e: Event)
      requires Valid()
      modifies this`db, this`trace
      ensures Valid() && Evolves(old(db), db)
      ensures Unissued(old(db), db, tokens)
    {
      if !(e.SaveSession? && e.hash in tokens) {
        OthersIssueOthers(db, e, tokens);
        Sound();
        StepEvolves(db, e);
        RunOneMore(start, trace, e);
        db := Step(db, e);
        trace := trace + [e];
      }
    }

    // Lets the other calls run until this one continues.
    method Await()
      requires Valid()
      modifies this`db, this`trace, this`others
      ensures Valid() && Evolves(old(db), db)
      ensures Unissued(old(db), db, tokens)
      ensures old(others) == [] ==> db == old(db) && others == []
    {
      if others != [] {
        var events := others[0];
        others := others[1..];
        for i := 0 to |events|
          invariant Valid() && Evolves(old(db), db)
          invariant Unissued(old(db), db, tokens)
        {
          ghost var before := db;
          ExecuteOther(events[i]);
          EvolvesTransitive(old(db), before, db);
        }
      }
    }

    // ----- deletion -----

    // One request to an external system.
    method Ask() returns (answer: Answer)
      modifies this`asked
      ensures answer == answers(old(asked))
    {
      answer := answers(asked);
      asked := asked + 1;
    }

    // Asks the provider to delete an identity and forgets it once that is confirmed.
    method CleanIdentity(id: string, identity: string) returns (confirmed: bool)
      requires Valid() && id in db.fenced
      modifies this`db, this`trace, this`others, this`asked
      ensures Valid() && Evolves(old(db), db)
      ensures confirmed ==> forall b :: b in db.billing && b.owner == id ==> b.appUserId != identity
      ensures (forall n :: answers(n) == Done) ==> confirmed
    {
      var answer := Ask();
      if answer != Refused {
        Execute(ProviderDeletes(id, identity));
      }
      confirmed := answer == Done;
      ghost var before := db;
      Await();
      if confirmed {
        EvolvesTransitive(old(db), before, db);
        before := db;
        Execute(CompleteBillingIdentity(id, identity));
      }
      EvolvesTransitive(old(db), before, db);
    }

    // Cleans every listed identity, one after the other, until one is not confirmed.
    method CleanIdentities(id: string, identities: set<string>) returns (done: bool)
      requires Valid() && IsFenced(db, id)
      requires forall b :: b in db.billing && b.owner == id ==> b.appUserId in identities
      modifies this`db, this`trace, this`others, this`asked
      ensures Valid() && Evolves(old(db), db)
      ensures done ==> BillingOf(db, id) == {}
      ensures (forall n :: answers(n) == Done) ==> done
    {
      var remaining := identities;
      done := true;
      while remaining != {} && done
        invariant Valid() && Evolves(old(db), db) && IsFenced(db, id)
        invariant done ==> forall b :: b in db.billing && b.owner == id ==> b.appUserId in remaining
        invariant (forall n :: answers(n) == Done) ==> done
        decreases remaining
      {
        ghost var before := db;
        var identity :| identity in remaining;
        Sound();
        done := CleanIdentity(id, identity);
        EvolvesTransitive(old(db), before, db);
        remaining := remaining - {identity};
      }
    }

    // The fence, awaited on both sides.
    method Close(id: string) returns (known: bool)
      requires Valid()
      modifies this`db, this`trace, this`others
      ensures Valid() && Evolves(old(db), db)
      ensures known == (id in old(db).accounts)
      ensures known ==> IsFenced(db, id)
    {
      known := id in db.accounts;
      if known {
        Await();
        ghost var before := db;
        Execute(Begin(id));
        EvolvesTransitive(old(db), before, db);
      }
    }

    // The deletion service: fence, product data, every billing identity, completion.
    method Delete(id: string) returns (error: Option<CleanupError>)
      requires Valid()
      modifies this`db, this`trace, this`others, this`asked
      ensures Valid() && Evolves(old(db), db)
      ensures error == Some(MissingAccount) <==> id !in old(db).accounts
      ensures error.None? ==> id in db.accounts && db.accounts[id].status == Deleted
      ensures error.Some? && error.value != MissingAccount ==> IsFenced(db, id)
      ensures id in old(db).accounts && (forall n :: answers(n) == Done) ==> error.None?
    {
      var known := Close(id);
      error := Some(MissingAccount);
      if known {
        ghost var closed := db;
        error := DeleteClosed(id);
        EvolvesTransitive(old(db), closed, db);
      }
    }

    // What follows the fence.
    method DeleteClosed(id: string) returns (error: Option<CleanupError>)
      requires Valid() && IsFenced(db, id)
      modifies this`db, this`trace, this`others, this`asked
      ensures Valid() && Evolves(old(db), db) && IsFenced(db, id)
      ensures error != Some(MissingAccount)
      ensures error.None? ==> db.accounts[id].status == Deleted
      ensures (forall n :: answers(n) == Done) ==> error.None?
    {
      Await();
      var product := Ask();
      error := Some(ProductFailed);
      if product == Done {
        ghost var before := db;
        Await();
        EvolvesTransitive(old(db), before, db);
        before := db;
        var done := CleanIdentities(id, IdentitiesOf(db, id));
        EvolvesTransitive(old(db), before, db);
        error := Some(ProviderFailed);
        if done {
          before := db;
          Finish(id);
          EvolvesTransitive(old(db), before, db);
          error := None;
        }
      }
    }

    // The completion statement, after another await.
    method Finish(id: string)
      requires Valid() && IsFenced(db, id) && BillingOf(db, id) == {}
      modifies this`db, this`trace, this`others
      ensures Valid() && Evolves(old(db), db)
      ensures id in db.accounts && db.accounts[id].status == Deleted
    {
      Await();
      ghost var before := db;
      NoBillingLeft(old(db), before, id);
      Execute(Complete(id));
      EvolvesTransitive(old(db), before, db);
    }

    // Only an application session may request deletion; the fence is all that happens at once.
    method RequestDeletion(principal: Principal) returns (error: Option<AccountError>)
      requires Valid()
      modifies this`db, this`trace, this`others
      ensures Valid() && Evolves(old(db), db)
      ensures principal.accountId.None? ==> error == Some(SessionRequired) && db == old(db)
      ensures principal.accountId.Some? ==> error == (if principal.accountId.value in old(db).accounts then None else Some(AccountMissing))
      ensures error.None? ==> principal.accountId.Some? && IsFenced(db, principal.accountId.value)
    {
      error := Some(SessionRequired);
      if principal.accountId.Some? {
        var known := Close(principal.accountId.value);
        error := if known then None else Some(AccountMissing);
      }
    }

    // A failed attempt is scheduled again, within the hour.
    method Reschedule(id: string, now: int)
      requires Valid() && IsFenced(db, id)
      modifies this`db, this`trace, this`others
      ensures Valid() && Evolves(old(db), db) && IsFenced(db, id)
      ensures Retried(old(db), db, id)
      ensures db.accounts[id].status == Deleted || now < DueTime(db, id) <= now + HOUR
    {
      Await();
      ghost var before := db;
      Sound();
      PostponedIsDue(before, id, now);
      Execute(Postpone(id, now));
      RetriedSince(old(db), before, db, id);
      EvolvesTransitive(old(db), before, db);
    }

    method Process(id: string, now: int) returns (error: Option<CleanupError>)
      requires Valid()
      modifies this`db, this`trace, this`others, this`asked
      ensures Valid() && Evolves(old(db), db)
      ensures error == Some(MissingAccount) <==> id !in old(db).accounts
      ensures error.None? ==> id in db.accounts && db.accounts[id].status == Deleted
      ensures error.Some? && error.value != MissingAccount ==>
        IsFenced(db, id) && Retried(old(db), db, id) && (db.accounts[id].status == Deleted || now < DueTime(db, id) <= now + HOUR)
      ensures id in old(db).accounts && (forall n :: answers(n) == Done) ==> error.None?
    {
      error := Delete(id);
      ghost var before := db;
      if error.Some? && error.value != MissingAccount {
        Reschedule(id, now);
        RetriedSince(old(db), before, db, id);
        EvolvesTransitive(old(db), before, db);
      } else if error.Some? {
        PostponeUnknown(id, now);
        EvolvesTransitive(old(db), before, db);
      }
    }

    // The same statement for an account that does not exist.
    method PostponeUnknown(id: string, now: int)
      requires Valid()
      modifies this`db, this`trace, this`others
      ensures Valid() && Evolves(old(db), db)
    {
      Await();
      ghost var before := db;
      Execute(Postpone(id, now));
      EvolvesTransitive(old(db), before, db);
    }

    // Retries the cleanup of the accounts that are due, one attempt each: the first ones due
    // when they are selected, and each ends deleted or with one more failure on record.
    method ProcessDue(now: int) returns (selected: seq<string>, ghost at: State)
      requires Valid()
      modifies this`db, this`trace, this`others, this`asked
      ensures Valid() && Evolves(old(db), at) && Evolves(at, db)
      ensures IsBatch(at, selected, now, BATCH)
      ensures AllRetried(at, db, selected)
      ensures (forall n :: answers(n) == Done) ==> AllDeleted(db, selected)
    {
      Execute(ExpireSessions(now));
      ghost var before := db;
      Await();
      EvolvesTransitive(old(db), before, db);
      at := db;
      selected := Due(now, BATCH);
      ProcessAll(selected, now);
    }

    method ProcessAll(ids: seq<string>, now: int)
      requires Valid() && AllFenced(db, ids)
      modifies this`db, this`trace, this`others, this`asked
      ensures Valid() && Evolves(old(db), db) && AllRetried(old(db), db, ids)
      ensures (forall n :: answers(n) == Done) ==> AllDeleted(db, ids)
    {
      for i := 0 to |ids|
        invariant Valid() && Evolves(old(db), db) && AllRetried(old(db), db, ids[..i])
        invariant (forall n :: answers(n) == Done) ==> AllDeleted(db, ids[..i])
      {
        ghost var before := db;
        ProcessNext(old(db), ids, i, now);
        EvolvesTransitive(old(db), before, db);
      }
      assert ids[..|ids|] == ids;
    }

    method ProcessNext(ghost from: State, ids: seq<string>, i: nat, now: int)
      requires Valid() && Evolves(from, db) && AllFenced(from, ids) && i < |ids| && AllRetried(from, db, ids[..i])
      modifies this`db, this`trace, this`others, this`asked
      ensures Valid() && Evolves(old(db), db) && AllRetried(from, db, ids[..i + 1])
      ensures (forall n :: answers(n) == Done) && AllDeleted(old(db), ids[..i]) ==> AllDeleted(db, ids[..i + 1])
    {
      ghost var before := db;
      assert IsFenced(from, ids[i]);
      var error := Process(ids[i], now);
      Sound();
      OneMoreRetried(from, before, db, ids, i);
    }

    // The accounts whose cleanup is due, the earliest first, at most `limit`.
    method Due(now: int, limit: nat) returns (selected: seq<string>)
      ensures IsBatch(db, selected, now, limit)
    {
      selected := [];
      var remaining := set id | id in db.accounts && IsDue(db, id, now);
      while remaining != {} && |selected| < limit
        invariant |selected| <= limit && Listed(db, selected)
        invariant forall id :: id in selected || id in remaining <==> IsDue(db, id, now)
        invariant forall id, other :: id in remaining && other in selected ==> Prior(db, other, id)
        decreases remaining
      {
        var next := Earliest(remaining);
        selected := selected + [next];
        remaining := remaining - {next};
      }
    }

    method Earliest(ids: set<string>) returns (first: string)
      requires ids != {}
      ensures first in ids && forall id :: id in ids && id != first ==> Prior(db, first, id)
    {
      first :| first in ids;
      var remaining := ids - {first};
      while remaining != {}
        invariant remaining <= ids && first in ids && first !in remaining
        invariant forall id :: id in ids && id !in remaining && id != first ==> Prior(db, first, id)
        decreases remaining
      {
        var id :| id in remaining;
        PriorIsOrder(db, id, first);
        if Prior(db, id, first) {
          forall other | other in ids && other !in remaining && other != first ensures Prior(db, id, other) {
            PriorTransitive(db, id, first, other);
          }
          first := id;
        }
        remaining := remaining - {id};
      }
    }

    // ----- sessions -----

    method Current(subject: string) returns (found: Option<string>)
      ensures found.Some? ==> Holds(db, found.value, subject)
      ensures found.None? ==> !Taken(db, subject)
    {
      found := None;
      if exists id | id in db.accounts.Keys :: Holds(db, id, subject) {
        var id :| id in db.accounts.Keys && Holds(db, id, subject);
        found := Some(id);
      }
    }

    // Which account a session is opened for: the pinned one or the subject's; None means that
    // one is to be registered.
    method Target(subject: string, input: SessionInput) returns (target: Result<Option<string>, AccountError>)
      requires Valid()
      ensures target.Success? && target.value.Some? ==>
        !input.register && Live(db, target.value.value) && Holds(db, target.value.value, subject)
        && (Pinned(input).Some? ==> Pinned(input) == target.value)
      ensures target == Success(None) <==> Pinned(input).None? && input.register && !Taken(db, subject)
      ensures target == Failure(RegistrationRequired) <==> Pinned(input).None? && !input.register && !Taken(db, subject)
      ensures target == Failure(AccountDeleted) <==>
        Pinned(input).Some? && !InProgress(db, Pinned(input).value) && !(Live(db, Pinned(input).value) && Holds(db, Pinned(input).value, subject))
      ensures target == Failure(AccountDeleting) <==>
        if Pinned(input).Some? then InProgress(db, Pinned(input).value)
        else exists id :: id in db.accounts && Holds(db, id, subject) && InProgress(db, id)
      ensures target.Failure? ==> target.error in {RegistrationRequired, AccountDeleted, AccountDeleting, AccountExists}
    {
      Sound();
      var account;
      if Pinned(input).Some? {
        account := if Pinned(input).value in db.accounts then Pinned(input) else None;
      } else {
        account := Current(subject);
      }
      if account.Some? && db.accounts[account.value].status == Deleted {
        target := Failure(AccountDeleted);
      } else if account.Some? && db.accounts[account.value].status == Deleting {
        target := Failure(AccountDeleting);
      } else if Pinned(input).Some? && (account.None? || !Holds(db, account.value, subject)) {
        target := Failure(AccountDeleted);
      } else if account.Some? && input.register {
        target := Failure(AccountExists);
      } else if account.None? && !input.register {
        target := Failure(RegistrationRequired);
      } else {
        target := Success(account);
      }
    }

    // Registers the subject unless someone did meanwhile, and reads whoever is current now.
    method RegisterSubject(subject: string, id: string) returns (account: Result<string, AccountError>)
      requires Valid()
      modifies this`db, this`trace, this`others
      ensures Valid() && Evolves(old(db), db)
      ensures Unissued(old(db), db, tokens)
      ensures account.Success? ==> Live(db, account.value) && Holds(db, account.value, subject)
      ensures old(others) == [] ==> others == []
      ensures old(others) == [] && !Taken(old(db), subject) && id !in old(db).accounts ==> account == Success(id)
    {
      Execute(Accounts.Register(subject, id));
      ghost var before := db;
      Await();
      EvolvesTransitive(old(db), before, db);
      Sound();
      var current := Current(subject);
      if current.None? {
        account := Failure(NotPersisted);
      } else if db.accounts[current.value].status != Active {
        account := Failure(AccountDeleting);
      } else {
        account := Success(current.value);
      }
    }

    // The insert of the session row, after another await; the trigger may abort it.
    method Save(accountId: string, subject: string, deviceId: string, hash: string, now: int) returns (saved: bool)
      requires Valid() && Holder(accountId, subject) in db.known && hash in tokens && hash !in db.issued
      modifies this`db, this`trace, this`others
      ensures Valid() && Evolves(old(db), db)
      ensures saved ==>
        Live(db, accountId) && Holds(db, accountId, subject)
        && hash in db.devices && db.devices[hash] == DeviceRow(accountId, deviceId, now + 1800)
        && hash in db.issued && db.issued[hash] == Holder(accountId, subject)
      ensures !saved ==> IsFenced(db, accountId)
      ensures old(others) == [] ==> others == [] && saved == Live(old(db), accountId)
    {
      Await();
      Sound();
      ghost var before := db;
      saved := Live(db, accountId);
      Execute(SaveSession(hash, Holder(accountId, subject), deviceId, now + 1800));
      EvolvesTransitive(old(db), before, db);
    }

    // Opens a device session. It is only ever saved for an account that is active at that
    // moment and whose subject is the caller; a renewal stays with the account it names.
    method Open(subject: string, input: SessionInput, draws: Draws, now: int) returns (session: Result<string, AccountError>)
      requires Valid() && draws.tokenHash in tokens && draws.tokenHash !in db.issued
      modifies this`db, this`trace, this`others
      ensures Valid() && Evolves(old(db), db)
      ensures session.Success? ==>
        Live(db, session.value) && Holds(db, session.value, subject)
        && draws.tokenHash in db.devices && db.devices[draws.tokenHash] == DeviceRow(session.value, input.deviceId, now + 1800)
        && draws.tokenHash in db.issued && db.issued[draws.tokenHash] == Holder(session.value, subject)
      ensures session.Success? && Pinned(input).Some? ==> Pinned(input) == Some(session.value)
      ensures old(others) == [] && Pinned(input).None? && input.register && !Taken(old(db), subject) && draws.accountId !in old(db).accounts ==>
        session == Success(draws.accountId)
    {
      var target := Target(subject, input);
      if target.Failure? {
        session := Failure(target.error);
      } else {
        session := OpenTarget(subject, target.value, input.deviceId, draws, now);
      }
    }

    method OpenTarget(subject: string, target: Option<string>, deviceId: string, draws: Draws, now: int)
      returns (session: Result<string, AccountError>)
      requires Valid() && draws.tokenHash in tokens && draws.tokenHash !in db.issued
      requires target.Some? ==> Live(db, target.value) && Holds(db, target.value, subject)
      modifies this`db, this`trace, this`others
      ensures Valid() && Evolves(old(db), db)
      ensures session.Success? ==>
        Live(db, session.value) && Holds(db, session.value, subject)
        && draws.tokenHash in db.devices && db.devices[draws.tokenHash] == DeviceRow(session.value, deviceId, now + 1800)
        && draws.tokenHash in db.issued && db.issued[draws.tokenHash] == Holder(session.value, subject)
      ensures session.Success? && target.Some? ==> target == Some(session.value)
      ensures old(others) == [] && target.None? && !Taken(old(db), subject) && draws.accountId !in old(db).accounts ==>
        session == Success(draws.accountId)
    {
      if target.Some? {
        session := Success(target.value);
      } else {
        session := RegisterSubject(subject, draws.accountId);
      }
      if session.Success? {
        Sound();
        ghost var before := db;
        var saved := Save(session.value, subject, deviceId, draws.tokenHash, now);
        EvolvesTransitive(old(db), before, db);
        if !saved {
          session := Failure(WriteAborted);
        }
      }
    }

    // The token's session, joined with its account.
    method Authenticate(hash: string, now: int) returns (principal: Result<Principal, AccountError>)
      requires Valid()
      modifies this`db, this`trace, this`others
      ensures Valid() && Evolves(old(db), db)
      ensures principal.Success? <==> hash in old(db).devices && old(db).devices[hash].expiresAt > now
      ensures principal.Success? ==>
        principal.value.accountId == Some(old(db).devices[hash].accountId) && hash in db.issued
        && principal.value.accountId == Some(db.issued[hash].accountId)
        && (Live(db, db.issued[hash].accountId) ==> principal.value.sub == db.issued[hash].subject)
      ensures principal.Failure? ==> principal.error == SessionInvalid
    {
      Sound();
      if hash !in db.devices || db.devices[hash].expiresAt <= now {
        principal := Failure(SessionInvalid);
      } else {
        var id := db.devices[hash].accountId;
        var subject := if db.accounts[id].subject.Some? then db.accounts[id].subject.value else "";
        Await();
        Sound();
        principal := if id in db.accounts then Success(Principal(subject, Some(id))) else Failure(AccountDeleted);
      }
    }

    // Lets a request through only for an active account; without a session only for the
    // caller's own migrated account.
    method RequireAccount(principal: Principal) returns (allowed: Result<Principal, AccountError>)
      requires Valid()
      ensures allowed.Success? ==> allowed.value.sub == principal.sub && allowed.value.accountId.Some?
      ensures principal.accountId.Some? && principal.accountId.value in db.accounts && principal.accountId.value != "" ==>
        (allowed.Success? <==> Live(db, principal.accountId.value))
      ensures allowed.Success? && principal.accountId.Some? && principal.accountId.value != "" ==> allowed.value == principal
      ensures principal.accountId.None? ==>
        (allowed.Success? <==> Live(db, principal.sub) && Holds(db, principal.sub, principal.sub) && db.accounts[principal.sub].legacy)
      ensures allowed.Success? && principal.accountId.None? ==> allowed.value.accountId == Some(principal.sub)
    {
      if principal.accountId.Some? && principal.accountId.value != "" {
        var id := principal.accountId.value;
        var deleted := id in db.accounts && db.accounts[id].status != Active;
        allowed := if deleted then Failure(AccountDeleted) else Success(principal);
      } else {
        var id := principal.sub;
        var ok := id in db.accounts && db.accounts[id].legacy && db.accounts[id].status == Active && db.accounts[id].subject == Some(principal.sub);
        allowed := if ok then Success(principal.(accountId := Some(id))) else Failure(SessionRequired);
      }
    }

    // A request with a session token: whatever happens meanwhile, it acts for the account the
    // token was issued for, active at the check, and never for a replacement.
    method Access(hash: string, now: int) returns (principal: Result<Principal, AccountError>)
      requires Valid()
      modifies this`db, this`trace, this`others
      ensures Valid() && Evolves(old(db), db)
      ensures principal.Success? ==>
        hash in db.issued && db.issued[hash].accountId != "" ==>
          principal.value == Principal(db.issued[hash].subject, Some(db.issued[hash].accountId))
          && Live(db, db.issued[hash].accountId) && Holds(db, db.issued[hash].accountId, db.issued[hash].subject)
      ensures principal.Success? ==> hash in db.issued
    {
      principal := Authenticate(hash, now);
      if principal.Success? {
        ghost var before := db;
        Sound();
        Await();
        EvolvesTransitive(old(db), before, db);
        Sound();
        var allowed := RequireAccount(principal.value);
        principal := allowed;
      }
    }
  }

  predicate InProgress(s: State, id: string) { id in s.accounts && s.accounts[id].status == Deleting }

  // The number of accounts one run of the scheduler takes on.
  const BATCH := 20

  function DueTime(s: State, id: string): int {
    if id in s.accounts && s.accounts[id].nextCleanupAt.Some? then s.accounts[id].nextCleanupAt.value else 0
  }

  predicate IsDue(s: State, id: string, now: int) {
    id in s.accounts && s.accounts[id].status == Deleting && s.accounts[id].nextCleanupAt.Some? && DueTime(s, id) <= now
  }

  // The order in which due accounts are listed: by due time, then by identifier.
  predicate Prior(s: State, a: string, b: string) {
    DueTime(s, a) < DueTime(s, b) || (DueTime(s, a) == DueTime(s, b) && TextLess(a, b))
  }

  lemma PriorIsOrder(s: State, a: string, b: string)
    requires a != b
    ensures Prior(s, a, b) <==> !Prior(s, b, a)
  {
    TextTotal(a, b);
  }

  lemma PriorTransitive(s: State, a: string, b: string, c: string)
    requires Prior(s, a, b) && Prior(s, b, c)
    ensures Prior(s, a, c)
  {
    if TextLess(a, b) && TextLess(b, c) {
      TextTransitive(a, b, c);
    }
  }

  ghost predicate Listed(s: State, ids: seq<string>) {
    forall i, j :: 0 <= i < j < |ids| ==> Prior(s, ids[i], ids[j])
  }

  // The due accounts in their order: all of them, or the first ones up to the limit.
  ghost predicate IsBatch(s: State, ids: seq<string>, now: int, limit: nat) {
    && |ids| <= limit && Listed(s, ids)
    && (forall id :: id in ids ==> IsDue(s, id, now))
    && (forall id, other :: IsDue(s, id, now) && id !in ids && other in ids ==> Prior(s, other, id))
    && (|ids| < limit ==> forall id :: IsDue(s, id, now) ==> id in ids)
  }

  ghost predicate AllFenced(s: State, ids: seq<string>) { forall id :: id in ids ==> IsFenced(s, id) }

  ghost predicate AllDeleted(s: State, ids: seq<string>) {
    forall id :: id in ids ==> id in s.accounts && s.accounts[id].status == Deleted
  }

  // The account is deleted, or another of its attempts has failed and it is due again, as the
  // number of its failures demands, after the last of them.
  ghost predicate Retried(before: State, after: State, id: string) {
    && id in before.accounts && id in after.accounts
    && (after.accounts[id].status == Deleted
        || (after.accounts[id].status == Deleting && after.accounts[id].cleanupAttempts > before.accounts[id].cleanupAttempts && DueOk(after, id)))
  }

  ghost predicate AllRetried(before: State, after: State, ids: seq<string>) { forall id :: id in ids ==> Retried(before, after, id) }

  lemma PostponedIsDue(s: State, id: string, now: int)
    requires Inv(s) && IsFenced(s, id)
    ensures var after := Next(s, Postpone(id, now));
      Retried(s, after, id) && (after.accounts[id].status == Deleted || now < DueTime(after, id) <= now + HOUR)
  {
    StepKeepsSchedule(s, Postpone(id, now));
    assert Scheduled(Next(s, Postpone(id, now)), id);
  }

  lemma RetriedSince(a: State, b: State, c: State, id: string)
    requires Evolves(a, b) && id in a.accounts && Retried(b, c, id)
    ensures Retried(a, c, id)
  {
  }

  lemma StaysRetried(a: State, b: State, c: State, id: string)
    requires Retried(a, b, id) && Evolves(b, c) && ScheduleOk(c)
    ensures Retried(a, c, id)
  {
    assert Scheduled(c, id);
  }

  lemma OneMoreRetried(a: State, b: State, c: State, ids: seq<string>, i: nat)
    requires i < |ids| && AllRetried(a, b, ids[..i]) && Evolves(a, b) && Evolves(b, c) && ScheduleOk(c) && ids[i] in a.accounts
    requires Retried(b, c, ids[i]) || AllDeleted(c, [ids[i]])
    ensures AllRetried(a, c, ids[..i + 1])
    ensures AllDeleted(b, ids[..i]) && AllDeleted(c, [ids[i]]) ==> AllDeleted(c, ids[..i + 1])
  {
    forall id | id in ids[..i + 1] ensures Retried(a, c, id) {
      if id in ids[..i] {
        StaysRetried(a, b, c, id);
      } else {
        assert id in [ids[i]];
      }
    }
  }

  // Nothing comes back to a closed account.
  lemma NoBillingLeft(before: State, after: State, id: string)
    requires Evolves(before, after) && IsFenced(before, id) && BillingOf(before, id) == {}
    ensures BillingOf(after, id) == {}
  {
    assert BillingOf(after, id) <= BillingOf(before, id);
  }
}
