// Which membership a billing snapshot grants, and how administration describes it.
module Grants {
  import opened Base
  import opened Catalogs

  // Times are numbers; None is the source's null.
  datatype Entitlement = Entitlement(id: string, sandbox: bool, startsAt: int, expiresAt: Option<int>, graceEndsAt: Option<int>)

  datatype Grant = Grant(planId: string, startsAt: int, endsAt: Option<int>)

  // ----- selection -----

  // The end including an honoured grace period.
  function EndsAt(e: Entitlement, honorGracePeriod: bool): Option<int> {
    if honorGracePeriod && e.graceEndsAt.Some? && e.expiresAt.Some? && e.graceEndsAt.value > e.expiresAt.value
    then e.graceEndsAt else e.expiresAt
  }

  predicate NotOver(endsAt: Option<int>, now: int) { endsAt.None? || endsAt.value > now }

  // The entitlement gives this plan at this time.
  predicate Grants(e: Entitlement, catalog: Catalog, planId: string, now: int, sandbox: bool) {
    && e.sandbox == sandbox && e.id in catalog.entitlementPlans && catalog.entitlementPlans[e.id] == planId
    && e.startsAt <= now && NotOver(EndsAt(e, catalog.honorGracePeriod), now)
  }

  function GrantOf(e: Entitlement, catalog: Catalog, planId: string): Grant {
    Grant(planId, e.startsAt, EndsAt(e, catalog.honorGracePeriod))
  }

  // The grants of one plan, in the order of the entitlements.
  function Candidates(entitlements: seq<Entitlement>, catalog: Catalog, planId: string, now: int, sandbox: bool): seq<Grant> {
    if entitlements == [] then [] else
      var n := |entitlements| - 1;
      var before := Candidates(entitlements[..n], catalog, planId, now, sandbox);
      if Grants(entitlements[n], catalog, planId, now, sandbox) then before + [GrantOf(entitlements[n], catalog, planId)] else before
  }

  // Null is later than every time.
  predicate EndsLater(a: Option<int>, b: Option<int>) { b.Some? && (a.None? || a.value > b.value) }

  // Inserts after every grant that ends no earlier, so equal ends keep their order.
  function Insert(sorted: seq<Grant>, g: Grant): seq<Grant> {
    if sorted == [] then [g]
    else if EndsLater(g.endsAt, sorted[0].endsAt) then [g] + sorted
    else [sorted[0]] + Insert(sorted[1..], g)
  }

  // The stable sort by end, latest first.
  function SortByEnd(grants: seq<Grant>): seq<Grant> {
    if grants == [] then [] else Insert(SortByEnd(grants[..|grants| - 1]), grants[|grants| - 1])
  }

  // The first plan, in the catalog's order, that has a candidate.
  function FirstGrant(entitlements: seq<Entitlement>, catalog: Catalog, plans: seq<Plan>, now: int, sandbox: bool): Option<Grant> {
    if plans == [] then None else
      var sorted := SortByEnd(Candidates(entitlements, catalog, plans[0].id, now, sandbox));
      if sorted != [] then Some(sorted[0]) else FirstGrant(entitlements, catalog, plans[1..], now, sandbox)
  }

  function BillingGrant(state: Option<seq<Entitlement>>, catalog: Catalog, now: int, sandbox: bool): Option<Grant> {
    if state.None? then None else FirstGrant(state.value, catalog, catalog.plans, now, sandbox)
  }

  // ----- the head of the sort is the first latest candidate -----

  // No grant ends later, and none before it in the order ends as late.
  ghost predicate FirstLatest(grants: seq<Grant>, k: nat) {
    && k < |grants|
    && (forall i :: 0 <= i < |grants| ==> !EndsLater(grants[i].endsAt, grants[k].endsAt))
    && (forall i :: 0 <= i < k ==> EndsLater(grants[k].endsAt, grants[i].endsAt))
  }

  lemma {:induction false} SortedHead(grants: seq<Grant>) returns (k: nat)
    requires grants != []
    ensures FirstLatest(grants, k) && SortByEnd(grants) != [] && SortByEnd(grants)[0] == grants[k]
  {
    var n := |grants| - 1;
    if n == 0 {
      k := 0;
    } else {
      k := SortedHead(grants[..n]);
      if EndsLater(grants[n].endsAt, grants[k].endsAt) {
        assert forall i :: 0 <= i < n ==> !EndsLater(grants[..n][i].endsAt, grants[k].endsAt);
        k := n;
      }
    }
  }

  // Some entitlement gives this plan now, with exactly this grant.
  ghost predicate GivenBy(g: Grant, entitlements: seq<Entitlement>, catalog: Catalog, planId: string, now: int, sandbox: bool) {
    exists e :: e in entitlements && Grants(e, catalog, planId, now, sandbox) && g == GrantOf(e, catalog, planId)
  }

  lemma {:induction false} CandidatesOf(entitlements: seq<Entitlement>, catalog: Catalog, planId: string, now: int, sandbox: bool)
    ensures forall g :: g in Candidates(entitlements, catalog, planId, now, sandbox) <==> GivenBy(g, entitlements, catalog, planId, now, sandbox)
  {
    if entitlements != [] {
      var n := |entitlements| - 1;
      CandidatesOf(entitlements[..n], catalog, planId, now, sandbox);
      var before := Candidates(entitlements[..n], catalog, planId, now, sandbox);
      forall g ensures g in Candidates(entitlements, catalog, planId, now, sandbox) <==> GivenBy(g, entitlements, catalog, planId, now, sandbox) {
        assert forall e :: e in entitlements <==> e in entitlements[..n] || e == entitlements[n];
        if GivenBy(g, entitlements[..n], catalog, planId, now, sandbox) {
          var e :| e in entitlements[..n] && Grants(e, catalog, planId, now, sandbox) && g == GrantOf(e, catalog, planId);
          assert e in entitlements;
        }
      }
    }
  }

  // Some entitlement gives this plan now.
  ghost predicate PlanGranted(entitlements: seq<Entitlement>, catalog: Catalog, planId: string, now: int, sandbox: bool) {
    exists e :: e in entitlements && Grants(e, catalog, planId, now, sandbox)
  }

  // A grant that an entitlement gives, such that none of its plan ends later.
  ghost predicate BestOfPlan(g: Grant, entitlements: seq<Entitlement>, catalog: Catalog, now: int, sandbox: bool) {
    && GivenBy(g, entitlements, catalog, g.planId, now, sandbox)
    && (forall other :: GivenBy(other, entitlements, catalog, g.planId, now, sandbox) ==> !EndsLater(other.endsAt, g.endsAt))
  }

  lemma HeadIsBest(entitlements: seq<Entitlement>, catalog: Catalog, planId: string, now: int, sandbox: bool)
    ensures var sorted := SortByEnd(Candidates(entitlements, catalog, planId, now, sandbox));
      && (sorted != [] <==> PlanGranted(entitlements, catalog, planId, now, sandbox))
      && (sorted != [] ==> sorted[0].planId == planId && BestOfPlan(sorted[0], entitlements, catalog, now, sandbox))
  {
    var candidates := Candidates(entitlements, catalog, planId, now, sandbox);
    CandidatesOf(entitlements, catalog, planId, now, sandbox);
    if candidates != [] {
      var k := SortedHead(candidates);
      assert candidates[k] in candidates;
      assert GivenBy(candidates[k], entitlements, catalog, planId, now, sandbox);
    } else if PlanGranted(entitlements, catalog, planId, now, sandbox) {
      var e :| e in entitlements && Grants(e, catalog, planId, now, sandbox);
      assert GivenBy(GrantOf(e, catalog, planId), entitlements, catalog, planId, now, sandbox);
    }
  }

  // Position i holds the first plan of the catalog that some entitlement gives.
  ghost predicate FirstGranted(entitlements: seq<Entitlement>, catalog: Catalog, plans: seq<Plan>, i: nat, now: int, sandbox: bool) {
    && i < |plans| && PlanGranted(entitlements, catalog, plans[i].id, now, sandbox)
    && (forall j :: 0 <= j < i ==> !PlanGranted(entitlements, catalog, plans[j].id, now, sandbox))
  }

  lemma {:induction false} FirstGrantIsOptimal(entitlements: seq<Entitlement>, catalog: Catalog, plans: seq<Plan>, now: int, sandbox: bool)
    returns (i: nat)
    ensures var result := FirstGrant(entitlements, catalog, plans, now, sandbox);
      if result.Some? then
        FirstGranted(entitlements, catalog, plans, i, now, sandbox) && result.value.planId == plans[i].id
        && BestOfPlan(result.value, entitlements, catalog, now, sandbox)
      else forall j :: 0 <= j < |plans| ==> !PlanGranted(entitlements, catalog, plans[j].id, now, sandbox)
  {
    i := 0;
    if plans != [] {
      HeadIsBest(entitlements, catalog, plans[0].id, now, sandbox);
      if !PlanGranted(entitlements, catalog, plans[0].id, now, sandbox) {
        i := FirstGrantIsOptimal(entitlements, catalog, plans[1..], now, sandbox);
        i := i + 1;
        forall j | 0 < j < |plans| ensures plans[j] == plans[1..][j - 1] {
        }
      }
    }
  }

  // ----- the results -----

  // The result is the first plan of the catalog with an active entitlement, with the latest
  // end among that plan's; there is none exactly when no plan has one.
  lemma GrantIsOptimal(state: Option<seq<Entitlement>>, catalog: Catalog, now: int, sandbox: bool) returns (i: nat)
    ensures var result := BillingGrant(state, catalog, now, sandbox);
      if result.Some? then
        state.Some? && FirstGranted(state.value, catalog, catalog.plans, i, now, sandbox) && result.value.planId == catalog.plans[i].id
        && BestOfPlan(result.value, state.value, catalog, now, sandbox)
      else state.Some? ==> forall j :: 0 <= j < |catalog.plans| ==> !PlanGranted(state.value, catalog, catalog.plans[j].id, now, sandbox)
  {
    i := 0;
    if state.Some? {
      i := FirstGrantIsOptimal(state.value, catalog, catalog.plans, now, sandbox);
    }
  }

  // How administration describes an entitlement.
  datatype AccessStatus = OtherEnvironment | Scheduled | ActiveAccess | GracePeriod | Expired

  function StatusOf(e: Entitlement, catalog: Catalog, now: int, sandbox: bool): AccessStatus {
    if e.sandbox != sandbox then OtherEnvironment
    else if e.startsAt > now then Scheduled
    else if e.expiresAt.None? || e.expiresAt.value > now then ActiveAccess
    else if catalog.honorGracePeriod && e.graceEndsAt.Some? && e.graceEndsAt.value > now then GracePeriod
    else Expired
  }

  predicate NamesPaidPlan(e: Entitlement, catalog: Catalog) {
    e.id in catalog.entitlementPlans && exists j | 0 <= j < |catalog.plans| :: catalog.plans[j].id == catalog.entitlementPlans[e.id]
  }

  lemma StatusMatchesGrant(e: Entitlement, catalog: Catalog, planId: string, now: int, sandbox: bool)
    ensures Grants(e, catalog, planId, now, sandbox) <==>
      e.id in catalog.entitlementPlans && catalog.entitlementPlans[e.id] == planId && StatusOf(e, catalog, now, sandbox) in {ActiveAccess, GracePeriod}
  {
  }

  // Membership and administration agree: something is granted exactly when administration
  // shows some entitlement of a paid plan as active or in its grace period.
  lemma GrantedIffShownActive(state: Option<seq<Entitlement>>, catalog: Catalog, now: int, sandbox: bool)
    ensures BillingGrant(state, catalog, now, sandbox).Some? <==>
      state.Some? && exists e :: e in state.value && NamesPaidPlan(e, catalog) && StatusOf(e, catalog, now, sandbox) in {ActiveAccess, GracePeriod}
  {
    var i := GrantIsOptimal(state, catalog, now, sandbox);
    if BillingGrant(state, catalog, now, sandbox).Some? {
      var e :| e in state.value && Grants(e, catalog, catalog.plans[i].id, now, sandbox);
      StatusMatchesGrant(e, catalog, catalog.plans[i].id, now, sandbox);
      assert NamesPaidPlan(e, catalog);
    } else if state.Some? {
      forall e | e in state.value && NamesPaidPlan(e, catalog) ensures StatusOf(e, catalog, now, sandbox) !in {ActiveAccess, GracePeriod} {
        var j :| 0 <= j < |catalog.plans| && catalog.plans[j].id == catalog.entitlementPlans[e.id];
        StatusMatchesGrant(e, catalog, catalog.plans[j].id, now, sandbox);
        assert !PlanGranted(state.value, catalog, catalog.plans[j].id, now, sandbox);
      }
    }
  }

  // At any later time before its end, a grant is not replaced by a plan of lower priority,
  // nor by an earlier end of the same plan.
  lemma GrantNeverDegrades(state: Option<seq<Entitlement>>, catalog: Catalog, now: int, later: int, sandbox: bool) returns (i: nat, j: nat)
    requires now <= later && BillingGrant(state, catalog, now, sandbox).Some?
    requires NotOver(BillingGrant(state, catalog, now, sandbox).value.endsAt, later)
    ensures var before, after := BillingGrant(state, catalog, now, sandbox), BillingGrant(state, catalog, later, sandbox);
      && after.Some? && j <= i < |catalog.plans|
      && FirstGranted(state.value, catalog, catalog.plans, i, now, sandbox) && before.value.planId == catalog.plans[i].id
      && FirstGranted(state.value, catalog, catalog.plans, j, later, sandbox) && after.value.planId == catalog.plans[j].id
      && (after.value.planId == before.value.planId ==> !EndsLater(before.value.endsAt, after.value.endsAt))
  {
    i := GrantIsOptimal(state, catalog, now, sandbox);
    j := GrantIsOptimal(state, catalog, later, sandbox);
    var before := BillingGrant(state, catalog, now, sandbox).value;
    var e :| e in state.value && Grants(e, catalog, before.planId, now, sandbox) && before == GrantOf(e, catalog, before.planId);
    assert Grants(e, catalog, before.planId, later, sandbox);
    assert PlanGranted(state.value, catalog, catalog.plans[i].id, later, sandbox);
    assert GivenBy(before, state.value, catalog, before.planId, later, sandbox);
  }
}
