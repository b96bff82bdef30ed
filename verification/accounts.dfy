// The application accounts of the server, one SQL statement (or batch) at a time: the write
// fence of the triggers, device sessions, and deletion with its cleanup at the billing provider.
module Accounts {
  import opened Base

  datatype Status = Active | Deleting | Deleted

  datatype AccountRow = AccountRow(subject: Option<string>, status: Status, legacy: bool, nextCleanupAt: Option<int>, cleanupAttempts: nat)

  // The tables whose rows an account owns.
  datatype Table = Records | UserKeys | MembershipGrants | MembershipUsage

  datatype OwnedRow = OwnedRow(table: Table, owner: string, key: string)

  datatype BillingRow = BillingRow(environment: string, owner: string, appUserId: string)

  datatype DeviceRow = DeviceRow(accountId: string, deviceId: string, expiresAt: int)

  datatype Holder = Holder(accountId: string, subject: string)

  datatype Cleanup = Cleanup(accountId: string, appUserId: string)

  datatype State = State(
    accounts: map<string, AccountRow>,
    devices: map<string, DeviceRow>,
    owned: set<OwnedRow>,
    billing: set<BillingRow>,
    known: set<Holder>,                 // history: every account ever current, with its subject
    issued: map<string, Holder>,        // history: whom each session token was saved for
    fenced: map<string, set<string>>,   // history: an account's billing identities when its writes were fenced
    cleaned: set<Cleanup>,              // history: identities the provider deleted after the fence
    lastFailure: map<string, int>)      // history: when a deletion attempt last failed

  // The statements, and the provider's answers. A statement that a deletion or session call
  // issues only after earlier ones is enabled by their history.
  datatype Event =
    | Register(subject: string, id: string)
    | SaveSession(hash: string, holder: Holder, deviceId: string, expiresAt: int)
    | RevokeSession(hash: string)
    | ExpireSessions(now: int)
    | Write(row: OwnedRow)
    | Rewrite(row: OwnedRow, replacement: OwnedRow)
    | Erase(row: OwnedRow)
    | AddBilling(billing: BillingRow)
    | Begin(id: string)
    | ProviderDeletes(id: string, appUserId: string)
    | CompleteBillingIdentity(id: string, appUserId: string)
    | Complete(id: string)
    | Postpone(id: string, now: int)

  const HOUR := 3600

  // ----- queries -----

  predicate Live(s: State, id: string) { id in s.accounts && s.accounts[id].status == Active }

  // What the triggers ask: the owner is an account that is no longer active.
  predicate IsFenced(s: State, owner: string) { owner in s.accounts && s.accounts[owner].status != Active }

  predicate Holds(s: State, id: string, subject: string) { id in s.accounts && s.accounts[id].subject == Some(subject) }

  predicate Taken(s: State, subject: string) { exists id | id in s.accounts.Keys :: Holds(s, id, subject) }

  function BillingOf(s: State, owner: string): set<BillingRow> { set b | b in s.billing && b.owner == owner }

  function IdentitiesOf(s: State, owner: string): (identities: set<string>)
    ensures forall b :: b in s.billing && b.owner == owner ==> b.appUserId in identities
  {
    set b | b in s.billing && b.owner == owner :: b.appUserId
  }

  function Min(a: int, b: int): int { if a <= b then a else b }

  // ----- the statements -----

  function Registered(s: State, subject: string, id: string): State {
    if id in s.accounts || Taken(s, subject) then s else
      s.(accounts := s.accounts[id := AccountRow(Some(subject), Active, false, None, 0)], known := s.known + {Holder(id, subject)})
  }

  // The devices trigger aborts an insert for an account that is not active.
  function SessionSaved(s: State, hash: string, holder: Holder, deviceId: string, expiresAt: int): State {
    if !Live(s, holder.accountId) then s else
      s.(devices := s.devices[hash := DeviceRow(holder.accountId, deviceId, expiresAt)], issued := s.issued[hash := holder])
  }

  // The write fence, then the removal of the account's rows.
  function Begun(s: State, id: string): State {
    var closing := Live(s, id);
    s.(accounts := if closing then s.accounts[id := s.accounts[id].(status := Deleting, nextCleanupAt := Some(0))] else s.accounts,
       owned := (set row | row in s.owned && row.owner != id),
       fenced := if closing then s.fenced[id := IdentitiesOf(s, id)] else s.fenced,
       lastFailure := if closing then s.lastFailure - {id} else s.lastFailure)
  }

  function Completed(s: State, id: string): State {
    if id in s.accounts && s.accounts[id].status == Deleting && BillingOf(s, id) == {} then
      s.(accounts := s.accounts[id := s.accounts[id].(subject := None, status := Deleted, nextCleanupAt := None)])
    else s
  }

  function Postponed(s: State, id: string, now: int): State {
    if id in s.accounts && s.accounts[id].status == Deleting then
      var row := s.accounts[id];
      s.(accounts := s.accounts[id := row.(cleanupAttempts := row.cleanupAttempts + 1,
                                           nextCleanupAt := Some(now + Min(HOUR, 60 * (row.cleanupAttempts + 1))))],
         lastFailure := s.lastFailure[id := now])
    else s
  }

  predicate Enabled(s: State, e: Event) {
    match e
    case SaveSession(hash, holder, _, _) => holder in s.known && hash !in s.issued
    case ProviderDeletes(id, _) => id in s.fenced
    case CompleteBillingIdentity(id, appUserId) => Cleanup(id, appUserId) in s.cleaned
    case _ => true
  }

  function Next(s: State, e: Event): State {
    match e
    case Register(subject, id) => Registered(s, subject, id)
    case SaveSession(hash, holder, deviceId, expiresAt) => SessionSaved(s, hash, holder, deviceId, expiresAt)
    case RevokeSession(hash) => s.(devices := s.devices - {hash})
    case ExpireSessions(now) => s.(devices := map h | h in s.devices && s.devices[h].expiresAt > now :: s.devices[h])
    case Write(row) => if IsFenced(s, row.owner) then s else s.(owned := s.owned + {row})
    case Rewrite(row, replacement) =>
      if row !in s.owned || IsFenced(s, replacement.owner) then s else s.(owned := s.owned - {row} + {replacement})
    case Erase(row) => s.(owned := s.owned - {row})
    case AddBilling(b) =>
      if IsFenced(s, b.owner) || (exists other | other in s.billing :: other.environment == b.environment && other.owner == b.owner)
      then s else s.(billing := s.billing + {b})
    case Begin(id) => Begun(s, id)
    case ProviderDeletes(id, appUserId) => s.(cleaned := s.cleaned + {Cleanup(id, appUserId)})
    case CompleteBillingIdentity(id, appUserId) =>
      s.(billing := set b | b in s.billing && !(b.owner == id && b.appUserId == appUserId))
    case Complete(id) => Completed(s, id)
    case Postpone(id, now) => Postponed(s, id, now)
  }

  function Step(s: State, e: Event): State { if Enabled(s, e) then Next(s, e) else s }

  function Run(s: State, events: seq<Event>): State {
    if events == [] then s else Step(Run(s, events[..|events| - 1]), events[|events| - 1])
  }

  // An empty database, or one whose rows were migrated to accounts named after their subjects.
  // Those under deletion before the migration are due at once; their rows were fenced already.
  ghost predicate Initial(s: State) {
    && (forall id :: id in s.accounts ==> Migrated(s.accounts[id], id))
    && (forall row :: row in s.owned ==> !IsFenced(s, row.owner))
    && s.fenced == (map id | id in s.accounts && s.accounts[id].status == Deleting :: IdentitiesOf(s, id))
    && s.devices == map[] && s.issued == map[] && s.cleaned == {} && s.lastFailure == map[]
    && s.known == set id | id in s.accounts :: Holder(id, id)
  }

  predicate Migrated(row: AccountRow, id: string) {
    row == AccountRow(Some(id), Active, true, None, 0) || row == AccountRow(Some(id), Deleting, true, Some(0), 0)
  }

  // ----- the invariant -----

  // The fence: a closed account owns nothing, and only billing rows it had when it was fenced.
  ghost predicate OwnedOk(s: State) { forall row :: row in s.owned ==> !IsFenced(s, row.owner) }

  ghost predicate BillingOk(s: State, b: BillingRow) {
    IsFenced(s, b.owner) ==> s.accounts[b.owner].status == Deleting && b.owner in s.fenced && b.appUserId in s.fenced[b.owner]
  }

  ghost predicate FenceOk(s: State) {
    && OwnedOk(s)
    && (forall b :: b in s.billing ==> BillingOk(s, b))
    && (forall id :: id in s.fenced <==> IsFenced(s, id))
  }

  // Subjects: a live account has one of its own, a deleted one has none.
  ghost predicate SubjectsOk(s: State) {
    && (forall id :: id in s.accounts ==> (s.accounts[id].subject.None? <==> s.accounts[id].status == Deleted))
    && (forall i, j :: i in s.accounts && j in s.accounts && s.accounts[i].subject.Some? && s.accounts[i].subject == s.accounts[j].subject ==> i == j)
  }

  predicate KnownOk(s: State, h: Holder) {
    h.accountId in s.accounts && (Holds(s, h.accountId, h.subject) || s.accounts[h.accountId].status == Deleted)
  }

  // Whatever was once current keeps its subject until it is deleted; sessions name whom they were issued for.
  ghost predicate SessionsOk(s: State) {
    && (forall h :: h in s.known ==> KnownOk(s, h))
    && (forall id :: id in s.accounts && s.accounts[id].subject.Some? ==> Holder(id, s.accounts[id].subject.value) in s.known)
    && (forall h :: h in s.issued ==> s.issued[h] in s.known)
    && (forall h :: h in s.devices ==> h in s.issued && s.issued[h].accountId == s.devices[h].accountId)
  }

  // Every identity of a fenced account is still to be cleaned or was deleted by the provider.
  ghost predicate CleanupOk(s: State) {
    forall id, identity :: id in s.fenced && identity in s.fenced[id] ==>
      Cleanup(id, identity) in s.cleaned || exists b :: b in s.billing && b.owner == id && b.appUserId == identity
  }

  // The delay after this many failed attempts.
  function Delay(attempts: nat): int { Min(HOUR, 60 * attempts) }

  // Before the first failure an account under deletion is already due.
  ghost predicate DueOk(s: State, id: string)
    requires id in s.accounts
  {
    && s.accounts[id].nextCleanupAt == Some(if id in s.lastFailure then s.lastFailure[id] + Delay(s.accounts[id].cleanupAttempts) else 0)
    && (id in s.lastFailure <==> s.accounts[id].cleanupAttempts > 0)
  }

  ghost predicate ScheduleOk(s: State) {
    forall id :: Scheduled(s, id)
  }

  ghost predicate Scheduled(s: State, id: string) {
    && (id in s.accounts && s.accounts[id].status == Deleting ==> DueOk(s, id))
    && (Live(s, id) ==> s.accounts[id].cleanupAttempts == 0)
    && (id in s.lastFailure ==> IsFenced(s, id))
  }

  ghost predicate Inv(s: State) { FenceOk(s) && SubjectsOk(s) && SessionsOk(s) && CleanupOk(s) && ScheduleOk(s) }

  lemma StepKeepsFenced(s: State, e: Event, id: string)
    requires id in s.fenced <==> IsFenced(s, id)
    ensures id in Next(s, e).fenced <==> IsFenced(Next(s, e), id)
  {
  }

  lemma StepKeepsOwned(s: State, e: Event, row: OwnedRow)
    requires row in s.owned ==> !IsFenced(s, row.owner)
    requires e.Rewrite? ==> (e.row in s.owned ==> !IsFenced(s, e.row.owner))
    ensures row in Next(s, e).owned ==> !IsFenced(Next(s, e), row.owner)
  {
  }

  lemma StepKeepsBilling(s: State, e: Event, b: BillingRow)
    requires b in s.billing ==> BillingOk(s, b)
    requires forall id :: id in s.fenced <==> IsFenced(s, id)
    ensures b in Next(s, e).billing ==> BillingOk(Next(s, e), b)
  {
    if e.Complete? && b in s.billing && b.owner == e.id {
      assert b in BillingOf(s, e.id);
    }
  }

  lemma StepKeepsFence(s: State, e: Event)
    requires FenceOk(s)
    ensures FenceOk(Next(s, e))
  {
    forall id ensures id in Next(s, e).fenced <==> IsFenced(Next(s, e), id) {
      StepKeepsFenced(s, e, id);
    }
    forall row | row in Next(s, e).owned ensures !IsFenced(Next(s, e), row.owner) {
      StepKeepsOwned(s, e, row);
    }
    forall b | b in Next(s, e).billing ensures BillingOk(Next(s, e), b) {
      StepKeepsBilling(s, e, b);
    }
  }

  lemma StepKeepsSubjects(s: State, e: Event)
    requires SubjectsOk(s)
    ensures SubjectsOk(Next(s, e))
  {
  }

  lemma StepKeepsKnown(s: State, e: Event, h: Holder)
    requires SubjectsOk(s)
    requires h in s.known ==> KnownOk(s, h)
    ensures h in Next(s, e).known ==> KnownOk(Next(s, e), h)
  {
  }

  lemma StepKeepsIssued(s: State, e: Event, hash: string)
    requires Enabled(s, e) && (hash in s.issued ==> s.issued[hash] in s.known)
    requires hash in s.devices ==> hash in s.issued && s.issued[hash].accountId == s.devices[hash].accountId
    ensures hash in Next(s, e).issued ==> Next(s, e).issued[hash] in Next(s, e).known
    ensures hash in Next(s, e).devices ==>
      hash in Next(s, e).issued && Next(s, e).issued[hash].accountId == Next(s, e).devices[hash].accountId
  {
  }

  lemma StepKeepsHolders(s: State, e: Event, id: string)
    requires id in s.accounts && s.accounts[id].subject.Some? ==> Holder(id, s.accounts[id].subject.value) in s.known
    ensures var after := Next(s, e);
      id in after.accounts && after.accounts[id].subject.Some? ==> Holder(id, after.accounts[id].subject.value) in after.known
  {
  }

  lemma StepKeepsSessions(s: State, e: Event)
    requires SessionsOk(s) && SubjectsOk(s) && Enabled(s, e)
    ensures SessionsOk(Next(s, e))
  {
    var after := Next(s, e);
    forall h | h in after.known ensures KnownOk(after, h) {
      StepKeepsKnown(s, e, h);
    }
    forall id | id in after.accounts && after.accounts[id].subject.Some? ensures Holder(id, after.accounts[id].subject.value) in after.known {
      StepKeepsHolders(s, e, id);
    }
    forall hash | hash in after.issued ensures after.issued[hash] in after.known {
      StepKeepsIssued(s, e, hash);
    }
    forall hash | hash in after.devices ensures hash in after.issued && after.issued[hash].accountId == after.devices[hash].accountId {
      StepKeepsIssued(s, e, hash);
    }
  }

  lemma StepKeepsCleanup(s: State, e: Event)
    requires CleanupOk(s) && Enabled(s, e)
    ensures CleanupOk(Next(s, e))
  {
  }

  lemma StepKeepsScheduled(s: State, e: Event, id: string)
    requires Scheduled(s, id)
    ensures Scheduled(Next(s, e), id)
  {
  }

  lemma StepKeepsSchedule(s: State, e: Event)
    requires ScheduleOk(s)
    ensures ScheduleOk(Next(s, e))
  {
    forall id ensures Scheduled(Next(s, e), id) {
      assert Scheduled(s, id);
      StepKeepsScheduled(s, e, id);
    }
  }

  lemma StepKeepsInv(s: State, e: Event)
    requires Inv(s)
    ensures Inv(Step(s, e))
  {
    if Enabled(s, e) {
      StepKeepsFence(s, e);
      StepKeepsSubjects(s, e);
      StepKeepsSessions(s, e);
      StepKeepsCleanup(s, e);
      StepKeepsSchedule(s, e);
    }
  }

  lemma InitialFence(s: State)
    requires Initial(s)
    ensures FenceOk(s) && CleanupOk(s)
  {
    forall id, identity | id in s.fenced && identity in s.fenced[id]
      ensures exists b :: b in s.billing && b.owner == id && b.appUserId == identity
    {
      assert identity in IdentitiesOf(s, id);
    }
  }

  lemma InitialInv(s: State)
    requires Initial(s)
    ensures Inv(s)
  {
    InitialFence(s);
    assert SubjectsOk(s) && SessionsOk(s);
    assert forall id :: Scheduled(s, id);
  }

  lemma {:induction false} RunKeepsInv(s: State, events: seq<Event>)
    requires Inv(s)
    ensures Inv(Run(s, events))
  {
    if events != [] {
      RunKeepsInv(s, events[..|events| - 1]);
      StepKeepsInv(Run(s, events[..|events| - 1]), events[|events| - 1]);
    }
  }

  // ----- what only ever moves forward -----

  function Rank(status: Status): nat {
    match status
    case Active => 0
    case Deleting => 1
    case Deleted => 2
  }

  predicate Advances(a: AccountRow, b: AccountRow) {
    Rank(a.status) <= Rank(b.status) && (b.subject == a.subject || b.status == Deleted) && a.cleanupAttempts <= b.cleanupAttempts
  }

  // Later states keep every account with its subject until it is deleted, never reopen one,
  // and add no billing row to a closed one; histories only grow.
  ghost predicate Evolves(a: State, b: State) {
    && (forall id :: id in a.accounts ==> id in b.accounts && Advances(a.accounts[id], b.accounts[id]))
    && a.known <= b.known && a.cleaned <= b.cleaned
    && (forall h :: h in a.issued ==> h in b.issued && b.issued[h] == a.issued[h])
    && (forall id :: id in a.fenced ==> id in b.fenced && b.fenced[id] == a.fenced[id])
    && (forall row :: row in b.billing && IsFenced(a, row.owner) ==> row in a.billing)
  }

  lemma StepAdvances(s: State, e: Event, id: string)
    requires id in s.accounts
    ensures id in Step(s, e).accounts && Advances(s.accounts[id], Step(s, e).accounts[id])
  {
  }

  lemma StepGrowsHistory(s: State, e: Event)
    requires FenceOk(s)
    ensures var after := Step(s, e);
      && s.known <= after.known && s.cleaned <= after.cleaned
      && (forall h :: h in s.issued ==> h in after.issued && after.issued[h] == s.issued[h])
      && (forall id :: id in s.fenced ==> id in after.fenced && after.fenced[id] == s.fenced[id])
  {
  }

  lemma StepAddsNoBilling(s: State, e: Event)
    ensures forall row :: row in Step(s, e).billing && IsFenced(s, row.owner) ==> row in s.billing
  {
  }

  lemma StepEvolves(s: State, e: Event)
    requires FenceOk(s)
    ensures Evolves(s, Step(s, e))
  {
    forall id | id in s.accounts ensures id in Step(s, e).accounts && Advances(s.accounts[id], Step(s, e).accounts[id]) {
      StepAdvances(s, e, id);
    }
    StepGrowsHistory(s, e);
    StepAddsNoBilling(s, e);
  }

  lemma EvolvesTransitive(a: State, b: State, c: State)
    requires Evolves(a, b) && Evolves(b, c)
    ensures Evolves(a, c)
  {
  }

  lemma {:induction false} RunEvolves(s: State, events: seq<Event>)
    requires Inv(s)
    ensures Evolves(s, Run(s, events))
  {
    if events != [] {
      var n := |events| - 1;
      RunEvolves(s, events[..n]);
      RunKeepsInv(s, events[..n]);
      StepEvolves(Run(s, events[..n]), events[n]);
      EvolvesTransitive(s, Run(s, events[..n]), Run(s, events));
    }
  }

  // ----- the results -----

  // In every reachable state: a closed account owns no records, keys, grants or usage; a
  // deleted one has no billing rows and no subject; a subject names at most one live account.
  lemma {:induction false} WriteFence(start: State, events: seq<Event>, id: string)
    requires Initial(start) && IsFenced(Run(start, events), id)
    ensures var s := Run(start, events);
      && (forall row :: row in s.owned ==> row.owner != id)
      && (s.accounts[id].status == Deleted ==> BillingOf(s, id) == {} && s.accounts[id].subject == None)
  {
    InitialInv(start);
    RunKeepsInv(start, events);
  }

  lemma {:induction false} OneLiveAccountPerSubject(start: State, events: seq<Event>, i: string, j: string)
    requires Initial(start)
    requires var s := Run(start, events);
      i in s.accounts && j in s.accounts && s.accounts[i].subject.Some? && s.accounts[i].subject == s.accounts[j].subject
    ensures i == j && Run(start, events).accounts[i].status != Deleted
  {
    InitialInv(start);
    RunKeepsInv(start, events);
  }

  // Whatever happens between two moments, no account is reopened.
  lemma {:induction false} StatusNeverMovesBack(start: State, events: seq<Event>, more: seq<Event>, id: string)
    requires Initial(start) && id in Run(start, events).accounts
    ensures id in Run(Run(start, events), more).accounts
    ensures Rank(Run(start, events).accounts[id].status) <= Rank(Run(Run(start, events), more).accounts[id].status)
  {
    InitialInv(start);
    RunKeepsInv(start, events);
    RunEvolves(Run(start, events), more);
  }

  // Every billing identity a deleted account had when it was fenced was deleted by the
  // provider after the fence.
  lemma DeletedMeansCleaned(start: State, events: seq<Event>, id: string)
    requires Initial(start) && id in Run(start, events).accounts && Run(start, events).accounts[id].status == Deleted
    ensures var s := Run(start, events);
      && id in s.fenced && BillingOf(s, id) == {}
      && (forall identity :: identity in s.fenced[id] ==> Cleanup(id, identity) in s.cleaned)
  {
    InitialInv(start);
    RunKeepsInv(start, events);
    var s := Run(start, events);
    assert IsFenced(s, id);
  }

  // An account under deletion is always due again, at most an hour after its last failure.
  lemma {:induction false} AlwaysDueAgain(start: State, events: seq<Event>, id: string)
    requires Initial(start) && id in Run(start, events).accounts && Run(start, events).accounts[id].status == Deleting
    ensures var s := Run(start, events);
      && s.accounts[id].nextCleanupAt.Some?
      && s.accounts[id].nextCleanupAt.value <= if id in s.lastFailure then s.lastFailure[id] + HOUR else 0
  {
    InitialInv(start);
    RunKeepsInv(start, events);
    assert Scheduled(Run(start, events), id);
  }

  // A deletion attempt of the account fails with this event.
  predicate FailsNow(s: State, e: Event, id: string) {
    e.Postpone? && e.id == id && id in s.accounts && s.accounts[id].status == Deleting
  }

  // When the account's deletion attempts failed, in order.
  function Failures(start: State, events: seq<Event>, id: string): seq<int> {
    if events == [] then [] else
      var n := |events| - 1;
      var before := Failures(start, events[..n], id);
      if FailsNow(Run(start, events[..n]), events[n], id) then before + [events[n].now] else before
  }

  ghost predicate Counted(s: State, id: string, times: seq<int>) {
    && (id in s.accounts ==> s.accounts[id].cleanupAttempts == |times|)
    && (id !in s.accounts || s.accounts[id].status == Active ==> times == [])
    && (times != [] ==> id in s.lastFailure && s.lastFailure[id] == times[|times| - 1])
  }

  lemma StepCounts(s: State, e: Event, id: string, times: seq<int>)
    requires Counted(s, id, times)
    ensures Counted(Step(s, e), id, if FailsNow(s, e, id) then times + [e.now] else times)
  {
  }

  lemma {:induction false} FailuresAreCounted(start: State, events: seq<Event>, id: string)
    requires Initial(start)
    ensures Counted(Run(start, events), id, Failures(start, events, id))
  {
    if events != [] {
      var n := |events| - 1;
      FailuresAreCounted(start, events[..n], id);
      StepCounts(Run(start, events[..n]), events[n], id, Failures(start, events[..n], id));
    }
  }

  // An account under deletion is due at once, and after failed attempts one minute for each of
  // them, at most an hour, after the last.
  lemma {:induction false} BackOff(start: State, events: seq<Event>, id: string)
    requires Initial(start) && id in Run(start, events).accounts && Run(start, events).accounts[id].status == Deleting
    ensures var times, row := Failures(start, events, id), Run(start, events).accounts[id];
      && row.cleanupAttempts == |times|
      && row.nextCleanupAt == Some(if times == [] then 0 else times[|times| - 1] + if |times| < 60 then 60 * |times| else HOUR)
  {
    InitialInv(start);
    RunKeepsInv(start, events);
    FailuresAreCounted(start, events, id);
    DueAfter(Run(start, events), id, Failures(start, events, id));
  }

  lemma DueAfter(s: State, id: string, times: seq<int>)
    requires ScheduleOk(s) && Counted(s, id, times) && id in s.accounts && s.accounts[id].status == Deleting
    ensures s.accounts[id].nextCleanupAt ==
      Some(if times == [] then 0 else times[|times| - 1] + if |times| < 60 then 60 * |times| else HOUR)
  {
    assert Scheduled(s, id);
  }

  // A session row appears only for an account that is active at that moment and whose subject is the caller's.
  lemma SessionOnlyForItsHolder(start: State, events: seq<Event>, e: Event, hash: string)
    requires Initial(start)
    requires hash !in Run(start, events).devices && hash in Step(Run(start, events), e).devices
    ensures var s, after := Run(start, events), Step(Run(start, events), e);
      && e.SaveSession? && e.hash == hash
      && after.devices[hash].accountId == e.holder.accountId
      && Live(s, e.holder.accountId) && Holds(s, e.holder.accountId, e.holder.subject)
  {
    InitialInv(start);
    RunKeepsInv(start, events);
  }

  // Closing a closed account again changes nothing at all, in particular not a replacement.
  lemma {:induction false} RepeatedDeletionChangesNothing(start: State, events: seq<Event>, id: string)
    requires Initial(start) && IsFenced(Run(start, events), id)
    ensures Step(Run(start, events), Begin(id)) == Run(start, events)
  {
    InitialInv(start);
    RunKeepsInv(start, events);
    var s := Run(start, events);
    assert (set row | row in s.owned && row.owner != id) == s.owned;
  }

  // Closing any account leaves every other account with its rows, sessions and billing.
  lemma DeletionLeavesOthersAlone(s: State, id: string, other: string)
    requires other != id
    ensures var after := Step(s, Begin(id));
      && after.devices == s.devices && after.billing == s.billing
      && (other in s.accounts <==> other in after.accounts) && (other in s.accounts ==> after.accounts[other] == s.accounts[other])
      && (forall row: OwnedRow :: row.owner == other ==> (row in after.owned <==> row in s.owned))
  {
  }
}
