// Billing catalogs: the validation of an edit against its predecessor, and the history of
// accepted revisions under concurrent editors.
module Catalogs {
  import opened Base

  datatype Period = Lifetime | UtcMonth

  // A JSON number, or None for null.
  datatype Capability = Capability(period: Period, limit: Option<real>)

  datatype Plan = Plan(id: string, displayName: Option<string>, capabilities: map<string, Capability>)

  datatype Availability = Availability(enabled: bool, message: string)

  datatype Purchases = Purchases(ios: Availability, android: Availability)

  datatype Catalog = Catalog(
    purchases: Option<Purchases>,
    freePlan: Plan,
    plans: seq<Plan>,
    entitlementPlans: map<string, string>,
    honorGracePeriod: bool)

  // The accounting period of each capability a host declares.
  type Schema = map<string, Period>

  datatype CatalogError = PlanIdentities | DisplayName | Capabilities | Entitlements | PreconditionFailed | ReferencedPlan

  const MAX_SAFE_INTEGER := 9007199254740991

  // ----- validation -----

  function AllPlans(c: Catalog): seq<Plan> { [c.freePlan] + c.plans }

  function Ids(plans: seq<Plan>): (ids: seq<string>)
    ensures |ids| == |plans| && forall i :: 0 <= i < |plans| ==> ids[i] == plans[i].id
  {
    seq(|plans|, i requires 0 <= i < |plans| => plans[i].id)
  }

  function Elements(ids: seq<string>): set<string> { set id | id in ids }

  function PlanIds(c: Catalog): set<string> { Elements(Ids(AllPlans(c))) }

  // The characters trim() removes.
  predicate IsBlank(c: char) {
    var n := c as int;
    9 <= n <= 13 || n == 32 || n == 0xA0 || n == 0x1680 || 0x2000 <= n <= 0x200A
    || n == 0x2028 || n == 0x2029 || n == 0x202F || n == 0x205F || n == 0x3000 || n == 0xFEFF
  }

  predicate NameOk(plan: Plan) {
    plan.displayName.None? || ((exists i | 0 <= i < |plan.displayName.value| :: !IsBlank(plan.displayName.value[i])) && |plan.displayName.value| <= 100)
  }

  predicate LimitOk(limit: Option<real>) {
    limit.None? || (limit.value.Floor as real == limit.value && 0.0 <= limit.value <= MAX_SAFE_INTEGER as real)
  }

  // As many capabilities as expected, each of them expected with its period.
  predicate CapabilitiesOk(plan: Plan, expected: Schema) {
    |plan.capabilities| == |expected|
    && forall key | key in plan.capabilities ::
         key in expected && expected[key] == plan.capabilities[key].period && LimitOk(plan.capabilities[key].limit)
  }

  function PeriodsOf(plan: Plan): Schema { map key | key in plan.capabilities :: plan.capabilities[key].period }

  function FindPlan(plans: seq<Plan>, id: string): (plan: Option<Plan>)
    ensures plan.Some? ==> plan.value in plans && plan.value.id == id
    ensures plan.None? ==> forall p :: p in plans ==> p.id != id
  {
    if plans == [] then None else if plans[0].id == id then Some(plans[0]) else FindPlan(plans[1..], id)
  }

  // What a plan's capabilities are checked against: the schema, or without one the plan's own
  // predecessor, or the predecessor's free plan.
  function Expected(plan: Plan, baseline: Option<Catalog>, schema: Option<Schema>): Schema
    requires schema.Some? || baseline.Some?
  {
    if schema.Some? then schema.value else
      var original := FindPlan(AllPlans(baseline.value), plan.id);
      PeriodsOf(if original.Some? then original.value else baseline.value.freePlan)
  }

  // The first plan that fails decides the error.
  function CheckPlans(plans: seq<Plan>, baseline: Option<Catalog>, schema: Option<Schema>): Option<CatalogError>
    requires schema.Some? || baseline.Some?
  {
    if plans == [] then None
    else if !NameOk(plans[0]) then Some(DisplayName)
    else if !CapabilitiesOk(plans[0], Expected(plans[0], baseline, schema)) then Some(Capabilities)
    else CheckPlans(plans[1..], baseline, schema)
  }

  predicate IdentitiesKept(catalog: Catalog, baseline: Option<Catalog>, schema: Option<Schema>) {
    && (baseline.Some? ==> catalog.freePlan.id == baseline.value.freePlan.id)
    && |Ids(AllPlans(catalog))| == |PlanIds(catalog)|
    && (schema.None? && baseline.Some? ==> PlanIds(baseline.value) <= PlanIds(catalog))
  }

  predicate EntitlementsOk(catalog: Catalog, baseline: Option<Catalog>) {
    && (baseline.Some? ==> baseline.value.entitlementPlans.Keys <= catalog.entitlementPlans.Keys)
    && (forall id | id in catalog.entitlementPlans :: catalog.entitlementPlans[id] in Elements(Ids(catalog.plans)))
  }

  // None means valid. Without a schema there is always a predecessor.
  function Validate(catalog: Catalog, baseline: Option<Catalog>, schema: Option<Schema>): Option<CatalogError>
    requires schema.Some? || baseline.Some?
  {
    if !IdentitiesKept(catalog, baseline, schema) then Some(PlanIdentities)
    else if CheckPlans(AllPlans(catalog), baseline, schema).Some? then CheckPlans(AllPlans(catalog), baseline, schema)
    else if !EntitlementsOk(catalog, baseline) then Some(Entitlements)
    else None
  }

  // ----- what a valid catalog is -----

  // Equal size and one-sided membership make the capabilities those expected, with their periods.
  lemma CapabilitiesAreExpected(plan: Plan, expected: Schema)
    ensures CapabilitiesOk(plan, expected) <==>
      PeriodsOf(plan) == expected && forall key :: key in plan.capabilities ==> LimitOk(plan.capabilities[key].limit)
  {
    if CapabilitiesOk(plan, expected) {
      SubsetOfSameSize(plan.capabilities.Keys, expected.Keys);
    } else if PeriodsOf(plan) == expected {
      assert plan.capabilities.Keys == PeriodsOf(plan).Keys;
      assert |plan.capabilities| == |plan.capabilities.Keys| && |expected| == |expected.Keys|;
    }
  }

  lemma {:induction false} SubsetOfSameSize(a: set<string>, b: set<string>)
    requires a <= b && |a| == |b|
    ensures a == b
  {
    if a != {} {
      var x :| x in a;
      SubsetOfSameSize(a - {x}, b - {x});
    }
  }

  // As many identifiers as elements means that no two are equal, and the other way round.
  lemma {:induction false} UniqueIffAsMany(ids: seq<string>)
    ensures |Elements(ids)| <= |ids|
    ensures |Elements(ids)| == |ids| <==> forall i, j :: 0 <= i < j < |ids| ==> ids[i] != ids[j]
  {
    if ids != [] {
      var n := |ids| - 1;
      UniqueIffAsMany(ids[..n]);
      assert Elements(ids) == Elements(ids[..n]) + {ids[n]};
      if ids[n] in ids[..n] {
        var i :| 0 <= i < n && ids[..n][i] == ids[n];
        assert Elements(ids) == Elements(ids[..n]);
        assert ids[i] == ids[n];
      } else {
        assert ids[n] !in Elements(ids[..n]);
        forall i | 0 <= i < n ensures ids[i] != ids[n] {
          assert ids[..n][i] in ids[..n];
        }
        if forall i, j :: 0 <= i < j < |ids| ==> ids[i] != ids[j] {
          assert forall i, j :: 0 <= i < j < n ==> ids[..n][i] != ids[..n][j];
        }
      }
    }
  }

  lemma {:induction false} CheckPlansIff(plans: seq<Plan>, baseline: Option<Catalog>, schema: Option<Schema>)
    requires schema.Some? || baseline.Some?
    ensures CheckPlans(plans, baseline, schema).None? <==> PlansOk(plans, baseline, schema)
  {
    if plans != [] {
      CheckPlansIff(plans[1..], baseline, schema);
      CapabilitiesAreExpected(plans[0], Expected(plans[0], baseline, schema));
      PlansOkSplits(plans, baseline, schema);
    }
  }

  lemma PlansOkSplits(plans: seq<Plan>, baseline: Option<Catalog>, schema: Option<Schema>)
    requires (schema.Some? || baseline.Some?) && plans != []
    ensures PlansOk(plans, baseline, schema) <==> PlanOk(plans[0], baseline, schema) && PlansOk(plans[1..], baseline, schema)
  {
    assert forall i :: 0 < i < |plans| ==> plans[i] == plans[1..][i - 1];
    assert forall i :: 0 <= i < |plans| - 1 ==> plans[1..][i] == plans[i + 1];
  }

  // The plan's name is usable, its capabilities and periods are exactly the expected ones,
  // and its limits are safe nonnegative integers.
  ghost predicate PlanOk(plan: Plan, baseline: Option<Catalog>, schema: Option<Schema>)
    requires schema.Some? || baseline.Some?
  {
    NameOk(plan) && PeriodsOf(plan) == Expected(plan, baseline, schema)
    && forall key :: key in plan.capabilities ==> LimitOk(plan.capabilities[key].limit)
  }

  ghost predicate PlansOk(plans: seq<Plan>, baseline: Option<Catalog>, schema: Option<Schema>)
    requires schema.Some? || baseline.Some?
  {
    forall i :: 0 <= i < |plans| ==> PlanOk(plans[i], baseline, schema)
  }

  // A well-formed edit of its predecessor, said without counting.
  ghost predicate Follows(catalog: Catalog, baseline: Option<Catalog>, schema: Option<Schema>)
    requires schema.Some? || baseline.Some?
  {
    && (baseline.Some? ==> catalog.freePlan.id == baseline.value.freePlan.id)
    && UniquePlans(catalog)
    && (schema.None? && baseline.Some? ==> PlanIds(baseline.value) <= PlanIds(catalog))
    && PlansOk(AllPlans(catalog), baseline, schema)
    && (baseline.Some? ==> baseline.value.entitlementPlans.Keys <= catalog.entitlementPlans.Keys)
    && MappingsOk(catalog)
  }

  ghost predicate PaidPlan(catalog: Catalog, id: string) { exists p :: p in catalog.plans && p.id == id }

  ghost predicate UniquePlans(catalog: Catalog) {
    forall i, j :: 0 <= i < j < |AllPlans(catalog)| ==> AllPlans(catalog)[i].id != AllPlans(catalog)[j].id
  }

  lemma UniqueIffCounted(catalog: Catalog)
    ensures |Ids(AllPlans(catalog))| == |PlanIds(catalog)| <==> UniquePlans(catalog)
  {
    var ids := Ids(AllPlans(catalog));
    UniqueIffAsMany(ids);
    if UniquePlans(catalog) {
      forall i, j | 0 <= i < j < |ids| ensures ids[i] != ids[j] {
        assert AllPlans(catalog)[i].id != AllPlans(catalog)[j].id;
      }
    } else {
      var i, j :| 0 <= i < j < |AllPlans(catalog)| && AllPlans(catalog)[i].id == AllPlans(catalog)[j].id;
      assert ids[i] == ids[j];
    }
  }

  lemma PaidIffListed(catalog: Catalog, id: string)
    ensures id in Elements(Ids(catalog.plans)) <==> PaidPlan(catalog, id)
  {
    if id in Ids(catalog.plans) {
      var i :| 0 <= i < |catalog.plans| && Ids(catalog.plans)[i] == id;
      assert catalog.plans[i] in catalog.plans;
    }
    if PaidPlan(catalog, id) {
      var p :| p in catalog.plans && p.id == id;
      var i :| 0 <= i < |catalog.plans| && catalog.plans[i] == p;
      assert Ids(catalog.plans)[i] == id;
    }
  }

  // Every mapping of an entitlement names a paid plan of the same catalog.
  ghost predicate MappingsOk(catalog: Catalog) {
    forall id :: id in catalog.entitlementPlans ==> PaidPlan(catalog, catalog.entitlementPlans[id])
  }

  lemma EntitlementsIff(catalog: Catalog, baseline: Option<Catalog>)
    ensures EntitlementsOk(catalog, baseline) <==>
      (baseline.Some? ==> baseline.value.entitlementPlans.Keys <= catalog.entitlementPlans.Keys) && MappingsOk(catalog)
  {
    forall id | id in catalog.entitlementPlans
      ensures catalog.entitlementPlans[id] in Elements(Ids(catalog.plans)) <==> PaidPlan(catalog, catalog.entitlementPlans[id])
    {
      PaidIffListed(catalog, catalog.entitlementPlans[id]);
    }
  }

  // Validation accepts exactly the well-formed edits.
  lemma ValidIffFollows(catalog: Catalog, baseline: Option<Catalog>, schema: Option<Schema>)
    requires schema.Some? || baseline.Some?
    ensures Validate(catalog, baseline, schema).None? <==> Follows(catalog, baseline, schema)
  {
    UniqueIffCounted(catalog);
    CheckPlansIff(AllPlans(catalog), baseline, schema);
    EntitlementsIff(catalog, baseline);
  }
}
