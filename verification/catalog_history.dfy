// Catalog edits under concurrent administrators: compare-and-set revisions, each validated
// against the revision it replaces.
module CatalogHistory {
  import opened Base
  import opened Catalogs

  datatype Versioned = Versioned(revision: nat, catalog: Catalog)

  // A host declares either a schema or, before its migration, a whole catalog.
  datatype Definition = WithSchema(schema: Schema) | Legacy(catalog: Catalog)

  function SchemaOf(d: Definition): Option<Schema> {
    match d
    case WithSchema(schema) => Some(schema)
    case Legacy(_) => None
  }

  // What revision r + 1 is validated against.
  function Baseline(d: Definition, history: seq<Catalog>, r: nat): Option<Catalog>
    requires r <= |history|
  {
    if r > 0 then Some(history[r - 1]) else
      match d
      case WithSchema(_) => None
      case Legacy(catalog) => Some(catalog)
  }

  // An accepted edit of its predecessor; a purchase policy, once set, is never dropped.
  ghost predicate Succeeds(d: Definition, catalog: Catalog, baseline: Option<Catalog>)
    requires SchemaOf(d).Some? || baseline.Some?
  {
    Follows(catalog, baseline, SchemaOf(d))
    && (baseline.Some? && baseline.value.purchases.Some? ==> catalog.purchases.Some?)
  }

  // Each revision of the history succeeds its exact predecessor.
  ghost predicate HistoryOk(d: Definition, history: seq<Catalog>) {
    forall i :: 0 <= i < |history| ==> RevisionOk(d, history, i)
  }

  ghost predicate RevisionOk(d: Definition, history: seq<Catalog>, i: nat)
    requires i < |history|
  {
    Succeeds(d, history[i], Baseline(d, history, i))
  }

  // What another administrator's call, a new membership grant, or the erasure of an account's
  // grants does to the database.
  datatype Foreign = Edit(expected: nat, catalog: Catalog) | Reference(planId: string) | Erase(planIds: set<string>)

  class CatalogService {
    const definition: Definition
    var stored: Option<Versioned>
    // Plans that membership grants refer to.
    var references: set<string>
    // Every accepted catalog, in order.
    ghost var history: seq<Catalog>
    // What others do at each point where this call awaits; any script is possible.
    var others: seq<seq<Foreign>>

    // Revisions are consecutive, and the stored catalog is the last one.
    ghost predicate Valid()
      reads this
    {
      && stored == (if history == [] then None else Some(Versioned(|history|, history[|history| - 1])))
      && HistoryOk(definition, history)
    }

    constructor (definition: Definition, others: seq<seq<Foreign>>)
      ensures Valid() && this.definition == definition && this.others == others && history == [] && references == {}
    {
      this.definition, this.others := definition, others;
      stored, references, history := None, {}, [];
    }

    // The conditional write; whether it changed the row.
    method Replace(catalog: Catalog, expected: nat) returns (changed: bool)
      requires Valid() && expected <= |history|
      requires Succeeds(definition, catalog, Baseline(definition, history, expected))
      modifies this`stored, this`history
      ensures Valid()
      ensures changed == (expected == |old(history)| && (expected > 0 ==> references <= PlanIds(catalog)))
      ensures history == if changed then old(history) + [catalog] else old(history)
    {
      var matches := if expected == 0 then stored.None?
                     else stored.Some? && stored.value.revision == expected && references <= PlanIds(catalog);
      changed := matches;
      if changed {
        HistoryGrows(definition, history, catalog);
        stored := Some(Versioned(expected + 1, catalog));
        history := history + [catalog];
      }
    }

    // Another administrator read revision `expected` and validated an edit of it.
    method Other(f: Foreign)
      requires Valid()
      modifies this`stored, this`history, this`references
      ensures Valid() && old(history) <= history
    {
      match f {
        case Reference(planId) => references := references + {planId};
        case Erase(planIds) => references := references - planIds;
        case Edit(expected, catalog) =>
          if stored.Some? && stored.value.revision == expected && Validate(catalog, Some(stored.value.catalog), SchemaOf(definition)).None?
            && (stored.value.catalog.purchases.Some? ==> catalog.purchases.Some?) {
            ValidIffFollows(catalog, Some(stored.value.catalog), SchemaOf(definition));
            var changed := Replace(catalog, expected);
          } else if stored.None? && expected == 0 {
            FirstEdit(catalog);
          }
      }
    }

    method FirstEdit(catalog: Catalog)
      requires Valid() && stored.None?
      modifies this`stored, this`history
      ensures Valid() && old(history) <= history
    {
      var baseline := if definition.Legacy? then Some(definition.catalog) else None;
      if Validate(catalog, baseline, SchemaOf(definition)).None? && (baseline.Some? && baseline.value.purchases.Some? ==> catalog.purchases.Some?) {
        ValidIffFollows(catalog, baseline, SchemaOf(definition));
        var changed := Replace(catalog, 0);
      }
    }

    // Lets the others run until this call continues.
    method Await()
      requires Valid()
      modifies this`stored, this`history, this`references, this`others
      ensures Valid() && old(history) <= history
      ensures old(others) == [] ==> history == old(history) && references == old(references) && others == []
    {
      if others != [] {
        var edits := others[0];
        others := others[1..];
        for i := 0 to |edits|
          invariant Valid() && old(history) <= history
        {
          Other(edits[i]);
        }
      }
    }

    // The stored catalog, or the legacy one as revision 0.
    function AdministrationCatalog(): (current: Option<Versioned>)
      reads this
    {
      if stored.Some? then stored
      else if definition.Legacy? then Some(Versioned(0, definition.catalog))
      else None
    }

    // What would be written: the edit with the stored purchase policy, if it is a valid edit of
    // the current revision.
    method Prepare(edit: Catalog, revision: nat) returns (prepared: Result<Catalog, CatalogError>)
      requires Valid()
      ensures prepared == Prepared(definition, history, edit, revision)
    {
      var current := AdministrationCatalog();
      prepared := Failure(PreconditionFailed);
      if (if current.Some? then current.value.revision else 0) == revision {
        var baseline := if current.Some? then Some(current.value.catalog) else None;
        var catalog := Preserving(edit, baseline);
        var invalid := Validate(catalog, baseline, SchemaOf(definition));
        prepared := if invalid.Some? then Failure(invalid.value) else Success(catalog);
      }
    }

    // An administrator's edit of a revision. It is accepted only as the direct successor of
    // exactly the catalog it was validated against. A write that is refused was too late, or
    // drops a plan that was referenced at that moment while its revision was current.
    method ReplaceCatalog(edit: Catalog, revision: nat) returns (result: Result<Versioned, CatalogError>, ghost referenced: set<string>)
      requires Valid()
      modifies this`stored, this`history, this`references, this`others
      ensures Valid() && old(history) <= history
      ensures var prepared := Prepared(definition, old(history), edit, revision);
        && (prepared.Failure? ==> result == Failure(prepared.error) && history == old(history))
        && (result.Success? ==>
              prepared == Success(result.value.catalog) && result.value.revision == revision + 1 && revision == |old(history)|
              && stored == Some(result.value) && history == old(history) + [result.value.catalog])
        && (prepared.Success? && result == Failure(PreconditionFailed) ==> |history| > revision == |old(history)|)
        && (prepared.Success? && result.Failure? && result.error != PreconditionFailed ==>
              result.error == ReferencedPlan && revision > 0 && history == old(history) && !(referenced <= PlanIds(prepared.value)))
        && (prepared.Success? && old(others) == [] ==>
              if revision == 0 || old(references) <= PlanIds(prepared.value) then result.Success? else result == Failure(ReferencedPlan))
    {
      var prepared := Prepare(edit, revision);
      if prepared.Failure? {
        result, referenced := Failure(prepared.error), references;
      } else {
        PreparedSucceeds(definition, history, edit, revision);
        result, referenced := Submit(prepared.value, revision);
      }
    }

    // The write, after another await; `referenced` is what was referenced at that moment.
    method Submit(catalog: Catalog, revision: nat) returns (result: Result<Versioned, CatalogError>, ghost referenced: set<string>)
      requires Valid() && revision == |history|
      requires Succeeds(definition, catalog, Baseline(definition, history, revision))
      modifies this`stored, this`history, this`references, this`others
      ensures Valid() && old(history) <= history
      ensures result.Success? ==>
        result.value == Versioned(revision + 1, catalog) && stored == Some(result.value) && history == old(history) + [catalog]
      ensures result == Failure(PreconditionFailed) ==> |history| > revision
      ensures result.Failure? && result.error != PreconditionFailed ==>
        result.error == ReferencedPlan && revision > 0 && history == old(history) && !(referenced <= PlanIds(catalog))
      ensures old(others) == [] ==>
        if revision == 0 || old(references) <= PlanIds(catalog) then result.Success? else result == Failure(ReferencedPlan)
    {
      Await();
      referenced := references;
      var changed := Replace(catalog, revision);
      if changed {
        result := Success(Versioned(revision + 1, catalog));
      } else {
        result := Refuse(revision);
      }
    }

    // Why a write was refused: the catalog is read again after another await, and if its
    // revision is still the expected one, a referenced plan was missing.
    method Refuse(revision: nat) returns (result: Result<Versioned, CatalogError>)
      requires Valid()
      modifies this`stored, this`history, this`references, this`others
      ensures Valid() && old(history) <= history
      ensures revision > 0 && |history| == revision ==> result == Failure(ReferencedPlan)
      ensures revision == 0 || |history| != revision ==> result == Failure(PreconditionFailed)
      ensures old(others) == [] ==> history == old(history)
    {
      result := Failure(PreconditionFailed);
      if revision != 0 {
        Await();
        if stored.Some? && stored.value.revision == revision {
          result := Failure(ReferencedPlan);
        }
      }
    }
  }

  // An edit that does not mention the purchase policy keeps the stored one.
  function Preserving(edit: Catalog, baseline: Option<Catalog>): Catalog {
    if edit.purchases.None? && baseline.Some? && baseline.value.purchases.Some? then edit.(purchases := baseline.value.purchases) else edit
  }

  ghost function Prepared(d: Definition, history: seq<Catalog>, edit: Catalog, revision: nat): Result<Catalog, CatalogError> {
    if revision != |history| then Failure(PreconditionFailed) else
      var baseline := Baseline(d, history, revision);
      var catalog := Preserving(edit, baseline);
      match Validate(catalog, baseline, SchemaOf(d))
      case Some(error) => Failure(error)
      case None => Success(catalog)
  }

  lemma PreparedSucceeds(d: Definition, history: seq<Catalog>, edit: Catalog, revision: nat)
    requires Prepared(d, history, edit, revision).Success?
    ensures revision == |history| && Succeeds(d, Prepared(d, history, edit, revision).value, Baseline(d, history, revision))
  {
    ValidIffFollows(Prepared(d, history, edit, revision).value, Baseline(d, history, revision), SchemaOf(d));
  }

  lemma HistoryGrows(d: Definition, history: seq<Catalog>, catalog: Catalog)
    requires HistoryOk(d, history) && Succeeds(d, catalog, Baseline(d, history, |history|))
    ensures HistoryOk(d, history + [catalog])
  {
    forall i | 0 <= i < |history + [catalog]| ensures RevisionOk(d, history + [catalog], i) {
      assert i < |history| ==> RevisionOk(d, history, i);
      assert Baseline(d, history + [catalog], i) == Baseline(d, history, i);
    }
  }

  // ----- the whole history -----

  // What one revision keeps of the one before it.
  ghost predicate Keeps(d: Definition, a: Catalog, b: Catalog) {
    && b.freePlan.id == a.freePlan.id && a.entitlementPlans.Keys <= b.entitlementPlans.Keys
    && (a.purchases.Some? ==> b.purchases.Some?)
    && (d.Legacy? ==> PlanIds(a) <= PlanIds(b))
  }

  lemma SuccessorKeeps(d: Definition, history: seq<Catalog>, j: nat)
    requires HistoryOk(d, history) && 0 < j < |history|
    ensures Keeps(d, history[j - 1], history[j])
  {
    assert RevisionOk(d, history, j);
  }

  // From any revision to any later one: the default plan keeps its identifier, no entitlement
  // disappears, a purchase policy stays, and without a schema no plan disappears either.
  lemma {:induction false} HistoryKeeps(d: Definition, history: seq<Catalog>, i: nat, j: nat)
    requires HistoryOk(d, history) && i <= j < |history|
    ensures Keeps(d, history[i], history[j])
  {
    if i < j {
      HistoryKeeps(d, history, i, j - 1);
      SuccessorKeeps(d, history, j);
    }
  }

  // Every revision: plan identifiers are unique, every mapping names a paid plan of that same
  // revision, and under a schema every plan has exactly its capabilities and periods.
  lemma HistoryIsWellFormed(d: Definition, history: seq<Catalog>, i: nat)
    requires HistoryOk(d, history) && i < |history|
    ensures UniquePlans(history[i]) && MappingsOk(history[i])
    ensures d.WithSchema? ==> forall p :: 0 <= p < |AllPlans(history[i])| ==> PeriodsOf(AllPlans(history[i])[p]) == d.schema
  {
    assert RevisionOk(d, history, i);
  }

  function PeriodsById(c: Catalog, id: string): Option<Schema> {
    match FindPlan(AllPlans(c), id)
    case Some(plan) => Some(PeriodsOf(plan))
    case None => None
  }

  lemma {:induction false} FoundAt(plans: seq<Plan>, id: string) returns (p: nat)
    requires FindPlan(plans, id).Some?
    ensures p < |plans| && plans[p] == FindPlan(plans, id).value
  {
    if plans[0].id == id {
      p := 0;
    } else {
      p := FoundAt(plans[1..], id);
      p := p + 1;
    }
  }

  lemma IdIsFound(c: Catalog, id: string)
    ensures id in PlanIds(c) <==> FindPlan(AllPlans(c), id).Some?
  {
    var ids := Ids(AllPlans(c));
    if id in ids {
      var i :| 0 <= i < |ids| && ids[i] == id;
      assert AllPlans(c)[i] in AllPlans(c);
    }
    if FindPlan(AllPlans(c), id).Some? {
      var p := FoundAt(AllPlans(c), id);
      assert ids[p] == id;
    }
  }

  lemma LegacySuccessorKeepsPeriods(d: Definition, history: seq<Catalog>, j: nat, id: string)
    requires HistoryOk(d, history) && d.Legacy? && 0 < j < |history|
    requires PeriodsById(history[j - 1], id).Some?
    ensures PeriodsById(history[j], id) == PeriodsById(history[j - 1], id)
  {
    assert RevisionOk(d, history, j);
    IdIsFound(history[j - 1], id);
    IdIsFound(history[j], id);
    var p := FoundAt(AllPlans(history[j]), id);
    assert PlanOk(AllPlans(history[j])[p], Some(history[j - 1]), None);
  }

  // Without a schema, a plan keeps its capabilities and periods from revision to revision.
  lemma {:induction false} LegacyPlansKeepPeriods(d: Definition, history: seq<Catalog>, i: nat, j: nat, id: string)
    requires HistoryOk(d, history) && d.Legacy? && i <= j < |history|
    requires PeriodsById(history[i], id).Some?
    ensures PeriodsById(history[j], id) == PeriodsById(history[i], id)
  {
    if i < j {
      LegacyPlansKeepPeriods(d, history, i, j - 1, id);
      LegacySuccessorKeepsPeriods(d, history, j, id);
    }
  }
}
