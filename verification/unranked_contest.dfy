// Contested puts on a payload that holds no number under the order's leading field: which
// arrival orders keep the greatest put, and when all of them agree.
module UnrankedContest {
  import opened Base
  import opened Json
  import opened Merge
  import opened ConflictOrders

  ghost predicate Contenders(puts: seq<JsonObject>, names: seq<string>) {
    names != [] && forall p :: p in puts ==> Contender(p, names)
  }

  // The number under the leading field.
  function Lead(payload: RawObject, field: string): real {
    if HasNumber(payload, field) then payload.Get(field).value.num else 0.0
  }

  // The put does not have the ancestor's value under this key.
  predicate Changes(base: JsonObject, put: JsonObject, key: string) { Changed(base.values, put.values, key) }

  ghost predicate Reorders(order: seq<JsonObject>, puts: seq<JsonObject>) { multiset(order) == multiset(puts) }

  lemma PrefixContenders(puts: seq<JsonObject>, names: seq<string>)
    requires Contenders(puts, names) && puts != []
    ensures Contenders(puts[..|puts| - 1], names) && Contender(puts[|puts| - 1], names)
  {
    assert puts[|puts| - 1] in puts && forall p :: p in puts[..|puts| - 1] ==> p in puts;
  }

  // ----- one put -----

  // On a payload without a number the put is merged key by key; on one with a number the
  // greater put or payload stays whole, and a tie keeps the number.
  lemma LeadStep(ancestor: Option<JsonObject>, stored: JsonObject, put: JsonObject, names: seq<string>)
    requires names != [] && Contender(put, names)
    ensures var r, f := ThreeWayMerge(ancestor, Some(stored), Some(put)).value, names[0];
      if !HasNumber(stored, f) then r == Merged(BaseOf(ancestor), stored, put)
      else if Lead(put, f) > Lead(stored, f) then r == put
      else if Lead(put, f) < Lead(stored, f) then r == stored
      else r.Get(f) == stored.Get(f)
  {
    var f := names[0];
    assert Names(names)[0] == Str(f) && HasNumber(put, f);
    if HasNumber(stored, f) && Lead(put, f) == Lead(stored, f) {
      ScanChoosesOne(Names(names), stored, put);
      MergeByKey(BaseOf(ancestor), stored, put, f);
    }
  }

  lemma MergedKey(base: JsonObject, stored: JsonObject, put: JsonObject, key: string)
    ensures Merged(base, stored, put).Get(key) == if Changes(base, put, key) then put.Get(key) else stored.Get(key)
  {
    MergeByKey(base, stored, put, key);
  }

  // What the put does to the leading field.
  lemma LeadOfStep(ancestor: Option<JsonObject>, stored: JsonObject, put: JsonObject, names: seq<string>)
    requires names != [] && Contender(put, names)
    ensures var r, f := ThreeWayMerge(ancestor, Some(stored), Some(put)).value, names[0];
      r.Get(f) == if HasNumber(stored, f) then Some(Num(Max(Lead(stored, f), Lead(put, f))))
                  else if Changes(BaseOf(ancestor), put, f) then Some(Num(Lead(put, f))) else stored.Get(f)
  {
    LeadStep(ancestor, stored, put, names);
    MergedKey(BaseOf(ancestor), stored, put, names[0]);
    assert HasNumber(put, names[0]);
  }

  function Max(a: real, b: real): real { if b > a then b else a }

  // ----- the number the contest ends with -----

  // The first put that changed the field, if any did.
  ghost predicate FirstChange(base: JsonObject, puts: seq<JsonObject>, field: string, j: nat) {
    && j <= |puts| && (forall i :: 0 <= i < j ==> !Changes(base, puts[i], field))
    && (j < |puts| ==> Changes(base, puts[j], field))
  }

  lemma {:induction false} FindFirstChange(base: JsonObject, puts: seq<JsonObject>, field: string) returns (j: nat)
    ensures FirstChange(base, puts, field, j)
  {
    if puts == [] {
      j := 0;
    } else {
      j := FindFirstChange(base, puts[..|puts| - 1], field);
      if j == |puts| - 1 && !Changes(base, puts[j], field) {
        j := |puts|;
      }
    }
  }

  lemma FirstChangeInPrefix(base: JsonObject, puts: seq<JsonObject>, field: string, j: nat)
    requires FirstChange(base, puts, field, j) && puts != []
    ensures var n := |puts| - 1;
      && FirstChange(base, puts[..n], field, if j <= n then j else n)
      && (j == n ==> Changes(base, puts[n], field)) && (j > n ==> !Changes(base, puts[n], field))
  {
  }

  ghost predicate IsTop(top: real, puts: seq<JsonObject>, field: string) {
    (exists p :: p in puts && Lead(p, field) == top) && forall p :: p in puts ==> Lead(p, field) <= top
  }

  lemma TopOfOne(put: JsonObject, field: string)
    ensures IsTop(Lead(put, field), [put], field)
  {
    assert put in [put];
  }

  lemma TopOneMore(top: real, puts: seq<JsonObject>, put: JsonObject, field: string)
    requires IsTop(top, puts, field)
    ensures IsTop(Max(top, Lead(put, field)), puts + [put], field)
  {
    var p :| p in puts && Lead(p, field) == top;
    assert p in puts + [put] && put in puts + [put];
  }

  // From a first change on, the number is the greatest of the puts that arrived since.
  ghost predicate EndsWith(result: JsonObject, current: JsonObject, puts: seq<JsonObject>, field: string, j: nat)
    requires j <= |puts|
  {
    if j == |puts| then result.Get(field) == current.Get(field)
    else HasNumber(result, field) && IsTop(Lead(result, field), puts[j..], field)
  }

  // The number one more put leaves.
  predicate NumberAfter(base: JsonObject, before: JsonObject, result: JsonObject, put: JsonObject, field: string) {
    result.Get(field) == if HasNumber(before, field) then Some(Num(Max(Lead(before, field), Lead(put, field))))
                         else if Changes(base, put, field) then Some(Num(Lead(put, field))) else before.Get(field)
  }

  lemma EndsWithRanked(base: JsonObject, before: JsonObject, result: JsonObject, current: JsonObject, puts: seq<JsonObject>, put: JsonObject, field: string, j: nat)
    requires j < |puts| && EndsWith(before, current, puts, field, j) && NumberAfter(base, before, result, put, field)
    ensures EndsWith(result, current, puts + [put], field, j)
  {
    assert puts[j..] + [put] == (puts + [put])[j..];
    TopOneMore(Lead(before, field), puts[j..], put, field);
  }

  lemma EndsWithFirst(base: JsonObject, before: JsonObject, result: JsonObject, current: JsonObject, puts: seq<JsonObject>, put: JsonObject, field: string)
    requires EndsWith(before, current, puts, field, |puts|) && NumberAfter(base, before, result, put, field) && !HasNumber(current, field)
    ensures EndsWith(result, current, puts + [put], field, if Changes(base, put, field) then |puts| else |puts| + 1)
  {
    assert (puts + [put])[|puts|..] == [put];
    TopOfOne(put, field);
  }

  // Puts that left the field as the ancestor has it pass unranked until one changes it; from
  // then on the number is the greatest to arrive. If none changes it, the field stays as it was.
  lemma {:induction false} FinalNumber(ancestor: Option<JsonObject>, current: JsonObject, puts: seq<JsonObject>, names: seq<string>, j: nat)
    requires Contenders(puts, names) && !HasNumber(current, names[0])
    requires FirstChange(BaseOf(ancestor), puts, names[0], j)
    ensures EndsWith(Arrive(ancestor, current, puts), current, puts, names[0], j)
  {
    if puts != [] {
      var before, last := puts[..|puts| - 1], puts[|puts| - 1];
      var k := if j <= |before| then j else |before|;
      assert before + [last] == puts;
      PrefixContenders(puts, names);
      FirstChangeInPrefix(BaseOf(ancestor), puts, names[0], j);
      FinalNumber(ancestor, current, before, names, k);
      FinalStep(ancestor, current, before, last, names, k);
    }
  }

  lemma FinalStep(ancestor: Option<JsonObject>, current: JsonObject, puts: seq<JsonObject>, put: JsonObject, names: seq<string>, j: nat)
    requires names != [] && Contender(put, names) && !HasNumber(current, names[0]) && j <= |puts|
    requires EndsWith(Arrive(ancestor, current, puts), current, puts, names[0], j)
    ensures EndsWith(Arrive(ancestor, current, puts + [put]), current, puts + [put], names[0],
      if j == |puts| && !Changes(BaseOf(ancestor), put, names[0]) then j + 1 else j)
  {
    var before, after := Arrive(ancestor, current, puts), Arrive(ancestor, current, puts + [put]);
    ArriveOneMore(ancestor, current, puts, put);
    LeadOfStep(ancestor, before, put, names);
    if j < |puts| {
      EndsWithRanked(BaseOf(ancestor), before, after, current, puts, put, names[0], j);
    } else {
      EndsWithFirst(BaseOf(ancestor), before, after, current, puts, put, names[0]);
    }
  }

  // ----- every arrival order: the greatest number -----

  // The puts that have, or have not, the ancestor's value under the field, in their order.
  function Picked(base: JsonObject, puts: seq<JsonObject>, field: string, changing: bool): (picked: seq<JsonObject>) {
    if puts == [] then [] else
      var n := |puts| - 1;
      var before := Picked(base, puts[..n], field, changing);
      if Changes(base, puts[n], field) == changing then before + [puts[n]] else before
  }

  lemma {:induction false} PickedMembers(base: JsonObject, puts: seq<JsonObject>, field: string, changing: bool, p: JsonObject)
    ensures p in Picked(base, puts, field, changing) <==> p in puts && Changes(base, p, field) == changing
  {
    if puts != [] {
      var n := |puts| - 1;
      PickedMembers(base, puts[..n], field, changing, p);
      assert p in puts <==> p in puts[..n] || p == puts[n];
    }
  }

  // The two parts together are all puts.
  ghost predicate Parts(a: seq<JsonObject>, b: seq<JsonObject>, puts: seq<JsonObject>) { multiset(a) + multiset(b) == multiset(puts) }

  lemma {:induction false} PickedAreAll(base: JsonObject, puts: seq<JsonObject>, field: string)
    ensures Parts(Picked(base, puts, field, false), Picked(base, puts, field, true), puts)
  {
    if puts != [] {
      PickedAreAll(base, puts[..|puts| - 1], field);
      PickedOneMore(base, puts[..|puts| - 1], puts[|puts| - 1], field);
      assert puts[..|puts| - 1] + [puts[|puts| - 1]] == puts;
    }
  }

  lemma PickedOneMore(base: JsonObject, puts: seq<JsonObject>, put: JsonObject, field: string)
    requires Parts(Picked(base, puts, field, false), Picked(base, puts, field, true), puts)
    ensures Parts(Picked(base, puts + [put], field, false), Picked(base, puts + [put], field, true), puts + [put])
  {
    assert (puts + [put])[..|puts|] == puts;
    OneMoreElement(puts, Picked(base, puts, field, false), Picked(base, puts, field, true), put);
  }

  lemma OneMoreElement(puts: seq<JsonObject>, a: seq<JsonObject>, b: seq<JsonObject>, put: JsonObject)
    requires Parts(a, b, puts)
    ensures Parts(a + [put], b, puts + [put]) && Parts(a, b + [put], puts + [put])
  {
  }

  // The order in which every put that left the field comes before those that changed it.
  function LeavingFirst(base: JsonObject, puts: seq<JsonObject>, field: string): seq<JsonObject> {
    Picked(base, puts, field, false) + Picked(base, puts, field, true)
  }

  function ChangingFirst(base: JsonObject, puts: seq<JsonObject>, field: string): seq<JsonObject> {
    Picked(base, puts, field, true) + Picked(base, puts, field, false)
  }

  lemma PickedReorder(base: JsonObject, puts: seq<JsonObject>, field: string)
    ensures Reorders(LeavingFirst(base, puts, field), puts) && Reorders(ChangingFirst(base, puts, field), puts)
  {
    PickedAreAll(base, puts, field);
  }

  lemma ReorderedContenders(order: seq<JsonObject>, puts: seq<JsonObject>, names: seq<string>)
    requires Reorders(order, puts) && Contenders(puts, names)
    ensures Contenders(order, names) && |order| == |puts| && forall p :: p in order <==> p in puts
  {
    SameElements(order, puts);
    assert forall p :: p in order <==> p in Elements(order);
    assert forall p :: p in puts <==> p in Elements(puts);
  }

  // The number that tops a part of the puts that holds the top of them all is that top.
  lemma SameTop(x: real, part: seq<JsonObject>, top: real, puts: seq<JsonObject>, field: string, p: JsonObject)
    requires IsTop(x, part, field) && IsTop(top, puts, field) && p in part && Lead(p, field) == top
    requires forall q :: q in part ==> q in puts
    ensures x == top
  {
    var q :| q in part && Lead(q, field) == x;
  }

  lemma FirstChangeBefore(base: JsonObject, order: seq<JsonObject>, field: string, j: nat, p: JsonObject)
    requires FirstChange(base, order, field, j) && p in order && Changes(base, p, field)
    ensures j < |order| && p in order[j..]
  {
    var i :| 0 <= i < |order| && order[i] == p;
    assert order[j..][i - j] == p;
  }

  lemma TailMembers(order: seq<JsonObject>, j: nat)
    requires j <= |order|
    ensures forall q :: q in order[j..] ==> q in order
  {
  }

  // An order that ranks the payload no later than the greatest put ends with its number.
  lemma TopSurvives(ancestor: Option<JsonObject>, current: JsonObject, puts: seq<JsonObject>, order: seq<JsonObject>, names: seq<string>,
                    top: real, j: nat, p: JsonObject)
    requires Contenders(order, names) && !HasNumber(current, names[0]) && IsTop(top, puts, names[0])
    requires FirstChange(BaseOf(ancestor), order, names[0], j) && j < |order|
    requires p in order[j..] && Lead(p, names[0]) == top && forall q :: q in order ==> q in puts
    ensures Arrive(ancestor, current, order).Get(names[0]) == Some(Num(top))
  {
    FinalNumber(ancestor, current, order, names, j);
    TailMembers(order, j);
    SameTop(Lead(Arrive(ancestor, current, order), names[0]), order[j..], top, puts, names[0], p);
  }

  // If the greatest number is not the ancestor's, every order ends with it.
  lemma ChangedTopSurvives(ancestor: Option<JsonObject>, current: JsonObject, puts: seq<JsonObject>, order: seq<JsonObject>, names: seq<string>, top: real)
    requires Contenders(puts, names) && !HasNumber(current, names[0]) && IsTop(top, puts, names[0]) && Reorders(order, puts)
    requires BaseOf(ancestor).Get(names[0]) != Some(Num(top))
    ensures Arrive(ancestor, current, order).Get(names[0]) == Some(Num(top))
  {
    ReorderedContenders(order, puts, names);
    var p :| p in puts && Lead(p, names[0]) == top;
    assert HasNumber(p, names[0]);
    var j := FindFirstChange(BaseOf(ancestor), order, names[0]);
    FirstChangeBefore(BaseOf(ancestor), order, names[0], j, p);
    TopSurvives(ancestor, current, puts, order, names, top, j, p);
  }

  lemma LeavingFirstChange(base: JsonObject, puts: seq<JsonObject>, field: string)
    ensures FirstChange(base, LeavingFirst(base, puts, field), field, |Picked(base, puts, field, false)|)
  {
    var leaving, changing := Picked(base, puts, field, false), Picked(base, puts, field, true);
    forall i | 0 <= i < |leaving| ensures !Changes(base, (leaving + changing)[i], field) {
      PickedMembers(base, puts, field, false, leaving[i]);
    }
    if changing != [] {
      PickedMembers(base, puts, field, true, changing[0]);
    }
  }

  // If it is the ancestor's, the order that lets the puts that left the field come first ends
  // below it, or unranked.
  lemma LeavingFirstLoses(ancestor: Option<JsonObject>, current: JsonObject, puts: seq<JsonObject>, names: seq<string>, top: real)
    requires Contenders(puts, names) && !HasNumber(current, names[0])
    requires BaseOf(ancestor).Get(names[0]) == Some(Num(top))
    ensures Arrive(ancestor, current, LeavingFirst(BaseOf(ancestor), puts, names[0])).Get(names[0]) != Some(Num(top))
  {
    var base, f := BaseOf(ancestor), names[0];
    var leaving, changing, order := Picked(base, puts, f, false), Picked(base, puts, f, true), LeavingFirst(base, puts, f);
    PickedReorder(base, puts, f);
    ReorderedContenders(order, puts, names);
    LeavingFirstChange(base, puts, f);
    FinalNumber(ancestor, current, order, names, |leaving|);
    assert order[|leaving|..] == changing;
    if changing != [] {
      var q :| q in changing && Lead(q, f) == Lead(Arrive(ancestor, current, order), f);
      PickedMembers(base, puts, f, true, q);
      assert HasNumber(q, f);
    }
  }

  lemma ChangingFirstWins(ancestor: Option<JsonObject>, current: JsonObject, puts: seq<JsonObject>, names: seq<string>, top: real, changed: JsonObject)
    requires Contenders(puts, names) && !HasNumber(current, names[0]) && IsTop(top, puts, names[0])
    requires changed in puts && Changes(BaseOf(ancestor), changed, names[0])
    ensures Arrive(ancestor, current, ChangingFirst(BaseOf(ancestor), puts, names[0])).Get(names[0]) == Some(Num(top))
  {
    var base, f := BaseOf(ancestor), names[0];
    var order := ChangingFirst(base, puts, f);
    PickedMembers(base, puts, f, true, changed);
    PickedMembers(base, puts, f, true, Picked(base, puts, f, true)[0]);
    PickedReorder(base, puts, f);
    ReorderedContenders(order, puts, names);
    var p :| p in puts && Lead(p, f) == top;
    assert order[0..] == order;
    TopSurvives(ancestor, current, puts, order, names, top, 0, p);
  }

  ghost predicate HasTop(payload: JsonObject, puts: seq<JsonObject>, field: string) {
    HasNumber(payload, field) && IsTop(Lead(payload, field), puts, field)
  }

  lemma RankedStep(ancestor: Option<JsonObject>, current: JsonObject, puts: seq<JsonObject>, put: JsonObject, names: seq<string>)
    requires names != [] && Contender(put, names) && HasTop(Arrive(ancestor, current, puts), [current] + puts, names[0])
    ensures HasTop(Arrive(ancestor, current, puts + [put]), [current] + (puts + [put]), names[0])
  {
    ArriveOneMore(ancestor, current, puts, put);
    LeadOfStep(ancestor, Arrive(ancestor, current, puts), put, names);
    TopOneMore(Lead(Arrive(ancestor, current, puts), names[0]), [current] + puts, put, names[0]);
    assert [current] + puts + [put] == [current] + (puts + [put]);
  }

  lemma {:induction false} RankedTop(ancestor: Option<JsonObject>, current: JsonObject, puts: seq<JsonObject>, names: seq<string>)
    requires Contenders(puts, names) && HasNumber(current, names[0])
    ensures HasTop(Arrive(ancestor, current, puts), [current] + puts, names[0])
  {
    if puts == [] {
      TopOfOne(current, names[0]);
      assert [current] + puts == [current];
    } else {
      var before, last := puts[..|puts| - 1], puts[|puts| - 1];
      assert before + [last] == puts;
      PrefixContenders(puts, names);
      RankedTop(ancestor, current, before, names);
      RankedStep(ancestor, current, before, last, names);
    }
  }

  lemma TopOfBoth(x: real, current: JsonObject, puts: seq<JsonObject>, field: string, top: real)
    requires IsTop(x, [current] + puts, field) && IsTop(top, puts, field)
    ensures x == Max(Lead(current, field), top)
  {
    var p :| p in puts && Lead(p, field) == top;
    assert current in [current] + puts && p in [current] + puts;
    var q :| q in [current] + puts && Lead(q, field) == x;
    assert q == current || q in puts;
  }

  // On a payload that already has a number the greatest of it and the puts remains.
  lemma RankedNumber(ancestor: Option<JsonObject>, current: JsonObject, puts: seq<JsonObject>, names: seq<string>, top: real)
    requires Contenders(puts, names) && HasNumber(current, names[0]) && IsTop(top, puts, names[0])
    ensures Arrive(ancestor, current, puts).Get(names[0]) == Some(Num(Max(Lead(current, names[0]), top)))
  {
    RankedTop(ancestor, current, puts, names);
    TopOfBoth(Lead(Arrive(ancestor, current, puts), names[0]), current, puts, names[0], top);
  }

  lemma {:induction false} TopOf(puts: seq<JsonObject>, field: string) returns (top: real)
    requires puts != []
    ensures IsTop(top, puts, field)
  {
    var n := |puts| - 1;
    if n == 0 {
      TopOfOne(puts[0], field);
      assert puts == [puts[0]];
      top := Lead(puts[0], field);
    } else {
      var x := TopOf(puts[..n], field);
      TopOneMore(x, puts[..n], puts[n], field);
      assert puts[..n] + [puts[n]] == puts;
      top := Max(x, Lead(puts[n], field));
    }
  }

  lemma ReorderedTop(top: real, order: seq<JsonObject>, puts: seq<JsonObject>, names: seq<string>)
    requires Contenders(puts, names) && IsTop(top, puts, names[0]) && Reorders(order, puts)
    ensures Contenders(order, names) && IsTop(top, order, names[0])
  {
    ReorderedContenders(order, puts, names);
    var p :| p in puts && Lead(p, names[0]) == top;
    assert p in order;
  }

  // Every arrival order ends with the greatest number of the puts under the leading field
  // exactly when the current payload holds none greater or, if it holds no number there, the
  // ancestor does not hold that very number.
  lemma GreatestNumberSurvivesIff(ancestor: Option<JsonObject>, current: JsonObject, puts: seq<JsonObject>, names: seq<string>, top: real)
    requires Contenders(puts, names) && IsTop(top, puts, names[0])
    ensures (forall order :: Reorders(order, puts) ==> Arrive(ancestor, current, order).Get(names[0]) == Some(Num(top)))
       <==> if HasNumber(current, names[0]) then Lead(current, names[0]) <= top else BaseOf(ancestor).Get(names[0]) != Some(Num(top))
  {
    if HasNumber(current, names[0]) {
      RankedNumber(ancestor, current, puts, names, top);
      forall order | Reorders(order, puts)
        ensures Arrive(ancestor, current, order).Get(names[0]) == Some(Num(Max(Lead(current, names[0]), top)))
      {
        ReorderedTop(top, order, puts, names);
        RankedNumber(ancestor, current, order, names, top);
      }
      assert Reorders(puts, puts);
    } else if BaseOf(ancestor).Get(names[0]) == Some(Num(top)) {
      LeavingFirstLoses(ancestor, current, puts, names, top);
      PickedReorder(BaseOf(ancestor), puts, names[0]);
    } else {
      forall order | Reorders(order, puts) ensures Arrive(ancestor, current, order).Get(names[0]) == Some(Num(top)) {
        ChangedTopSurvives(ancestor, current, puts, order, names, top);
      }
    }
  }

  ghost predicate NumbersAgree(ancestor: Option<JsonObject>, current: JsonObject, puts: seq<JsonObject>, field: string) {
    forall a, b :: Reorders(a, puts) && Reorders(b, puts) ==>
      Arrive(ancestor, current, a).Get(field) == Arrive(ancestor, current, b).Get(field)
  }

  // All arrival orders agree on the leading field exactly when the current payload holds a
  // number there, or the ancestor does not hold the greatest, or all puts hold the ancestor's
  // number and none of them ranks the payload.
  lemma NumbersAgreeIff(ancestor: Option<JsonObject>, current: JsonObject, puts: seq<JsonObject>, names: seq<string>, top: real)
    requires Contenders(puts, names) && IsTop(top, puts, names[0])
    ensures NumbersAgree(ancestor, current, puts, names[0])
       <==> HasNumber(current, names[0]) || BaseOf(ancestor).Get(names[0]) != Some(Num(top)) || forall p :: p in puts ==> Lead(p, names[0]) == top
  {
    var base, f := BaseOf(ancestor), names[0];
    if HasNumber(current, f) {
      forall order | Reorders(order, puts)
        ensures Arrive(ancestor, current, order).Get(f) == Some(Num(Max(Lead(current, f), top)))
      {
        ReorderedTop(top, order, puts, names);
        RankedNumber(ancestor, current, order, names, top);
      }
    } else if base.Get(f) != Some(Num(top)) {
      GreatestNumberSurvivesIff(ancestor, current, puts, names, top);
    } else if p :| p in puts && Lead(p, f) != top {
      assert HasNumber(p, f) && Changes(base, p, f);
      LeavingFirstLoses(ancestor, current, puts, names, top);
      ChangingFirstWins(ancestor, current, puts, names, top, p);
      PickedReorder(base, puts, f);
    } else {
      forall order | Reorders(order, puts) ensures Arrive(ancestor, current, order).Get(f) == current.Get(f) {
        NoneChanges(ancestor, current, puts, order, names, top);
      }
    }
  }

  lemma NoneChanges(ancestor: Option<JsonObject>, current: JsonObject, puts: seq<JsonObject>, order: seq<JsonObject>, names: seq<string>, top: real)
    requires Contenders(puts, names) && !HasNumber(current, names[0]) && Reorders(order, puts)
    requires BaseOf(ancestor).Get(names[0]) == Some(Num(top)) && forall p :: p in puts ==> Lead(p, names[0]) == top
    ensures Arrive(ancestor, current, order).Get(names[0]) == current.Get(names[0])
  {
    ReorderedContenders(order, puts, names);
    forall i | 0 <= i < |order| ensures !Changes(BaseOf(ancestor), order[i], names[0]) {
      assert order[i] in puts && HasNumber(order[i], names[0]);
    }
    FinalNumber(ancestor, current, order, names, |order|);
  }

  // ----- a greatest put among lesser ones -----

  ghost predicate Below(puts: seq<JsonObject>, top: JsonObject, field: string) {
    forall p :: p in puts ==> Lead(p, field) < Lead(top, field)
  }

  lemma {:induction false} ArriveSplit(ancestor: Option<JsonObject>, current: JsonObject, a: seq<JsonObject>, b: seq<JsonObject>)
    ensures Arrive(ancestor, current, a + b) == Arrive(ancestor, Arrive(ancestor, current, a), b)
  {
    if b == [] {
      assert a + b == a;
    } else {
      var before, last := b[..|b| - 1], b[|b| - 1];
      assert before + [last] == b;
      ArriveSplit(ancestor, current, a, before);
      SplitOneMore(ancestor, current, a, before, last);
    }
  }

  lemma SplitOneMore(ancestor: Option<JsonObject>, current: JsonObject, a: seq<JsonObject>, b: seq<JsonObject>, put: JsonObject)
    requires Arrive(ancestor, current, a + b) == Arrive(ancestor, Arrive(ancestor, current, a), b)
    ensures Arrive(ancestor, current, a + (b + [put])) == Arrive(ancestor, Arrive(ancestor, current, a), b + [put])
  {
    assert a + (b + [put]) == a + b + [put];
    ArriveOneMore(ancestor, current, a + b, put);
    ArriveOneMore(ancestor, Arrive(ancestor, current, a), b, put);
  }

  lemma {:induction false} LesserStay(ancestor: Option<JsonObject>, stored: JsonObject, puts: seq<JsonObject>, names: seq<string>)
    requires Contenders(puts, names) && HasNumber(stored, names[0]) && Below(puts, stored, names[0])
    ensures Arrive(ancestor, stored, puts) == stored
  {
    if puts != [] {
      var before, last := puts[..|puts| - 1], puts[|puts| - 1];
      assert before + [last] == puts;
      PrefixContenders(puts, names);
      PrefixBelow(puts, stored, names[0]);
      LesserStay(ancestor, stored, before, names);
      LeadStep(ancestor, stored, last, names);
      ArriveOneMore(ancestor, stored, before, last);
    }
  }

  lemma PrefixBelow(puts: seq<JsonObject>, top: JsonObject, field: string)
    requires Below(puts, top, field) && puts != []
    ensures Below(puts[..|puts| - 1], top, field) && Lead(puts[|puts| - 1], field) < Lead(top, field)
  {
    assert puts[|puts| - 1] in puts && forall p :: p in puts[..|puts| - 1] ==> p in puts;
  }

  lemma RankedBelow(ancestor: Option<JsonObject>, current: JsonObject, puts: seq<JsonObject>, top: JsonObject, names: seq<string>)
    requires Contenders(puts, names) && !HasNumber(current, names[0]) && Below(puts, top, names[0])
    ensures var s := Arrive(ancestor, current, puts);
      && (HasNumber(s, names[0]) ==> Lead(s, names[0]) < Lead(top, names[0]))
      && (HasNumber(s, names[0]) <==> exists p :: p in puts && Changes(BaseOf(ancestor), p, names[0]))
  {
    var j := FindFirstChange(BaseOf(ancestor), puts, names[0]);
    FinalNumber(ancestor, current, puts, names, j);
    if j < |puts| {
      assert puts[j] in puts;
      var p :| p in puts[j..] && Lead(p, names[0]) == Lead(Arrive(ancestor, current, puts), names[0]);
      TailMembers(puts, j);
    }
  }

  // What the greatest put finds decides: it is stored whole over a number, and merged into a
  // payload that is still unranked; what comes later changes nothing.
  lemma TopDecides(ancestor: Option<JsonObject>, current: JsonObject, before: seq<JsonObject>, top: JsonObject, after: seq<JsonObject>, names: seq<string>)
    requires Contenders(before, names) && Contender(top, names) && Contenders(after, names)
    requires !HasNumber(current, names[0]) && Below(before, top, names[0]) && Below(after, top, names[0])
    ensures var s, r := Arrive(ancestor, current, before), Arrive(ancestor, current, before + [top] + after);
      && (HasNumber(s, names[0]) ==> r == top)
      && (!HasNumber(s, names[0]) && Changes(BaseOf(ancestor), top, names[0]) ==> r == Merged(BaseOf(ancestor), s, top))
  {
    var s := Arrive(ancestor, current, before);
    RankedBelow(ancestor, current, before, top, names);
    LeadStep(ancestor, s, top, names);
    ArriveSplit(ancestor, current, before + [top], after);
    ArriveSplit(ancestor, current, before, [top]);
    assert [top][..0] == [] && HasNumber(top, names[0]);
    var next := Arrive(ancestor, s, [top]);
    MergedKey(BaseOf(ancestor), s, top, names[0]);
    if HasNumber(s, names[0]) || Changes(BaseOf(ancestor), top, names[0]) {
      assert next.Get(names[0]) == top.Get(names[0]);
      LesserStay(ancestor, next, after, names);
    }
  }

  // While no put has changed the field, each key is as some put that changed it left it, or as
  // it was.
  lemma {:induction false} UnrankedKey(ancestor: Option<JsonObject>, current: JsonObject, puts: seq<JsonObject>, names: seq<string>, key: string)
    requires Contenders(puts, names) && !HasNumber(current, names[0])
    requires forall p :: p in puts ==> !Changes(BaseOf(ancestor), p, names[0])
    ensures var s := Arrive(ancestor, current, puts);
      !HasNumber(s, names[0]) && (s.Get(key) == current.Get(key) || exists z :: z in puts && LeftBy(BaseOf(ancestor), s, z, key))
  {
    if puts != [] {
      var before, last := puts[..|puts| - 1], puts[|puts| - 1];
      assert before + [last] == puts && forall p :: p in puts <==> p in before || p == last;
      UnrankedKey(ancestor, current, before, names, key);
      var s := Arrive(ancestor, current, before);
      ArriveOneMore(ancestor, current, before, last);
      LeadStep(ancestor, s, last, names);
      MergedKey(BaseOf(ancestor), s, last, names[0]);
      MergedKey(BaseOf(ancestor), s, last, key);
      if Changes(BaseOf(ancestor), last, key) {
        assert LeftBy(BaseOf(ancestor), Arrive(ancestor, current, puts), last, key);
      } else if s.Get(key) != current.Get(key) {
        var z :| z in before && LeftBy(BaseOf(ancestor), s, z, key);
        assert LeftBy(BaseOf(ancestor), Arrive(ancestor, current, puts), z, key);
      }
    }
  }

  ghost predicate LeftBy(base: JsonObject, s: JsonObject, z: JsonObject, key: string) {
    Changes(base, z, key) && s.Get(key) == z.Get(key)
  }

  // ----- the greatest put, key by key -----

  // The greatest put changed the key; or the current payload has its value there, and so has
  // every put that changes the key without ranking the payload.
  ghost predicate KeepsKey(base: JsonObject, current: JsonObject, top: JsonObject, others: seq<JsonObject>, field: string, key: string) {
    Changes(base, top, key)
    || (current.Get(key) == top.Get(key)
        && forall z :: z in others && !Changes(base, z, field) && Changes(base, z, key) ==> z.Get(key) == top.Get(key))
  }

  lemma ElementsOf(a: seq<JsonObject>, x: JsonObject, b: seq<JsonObject>)
    ensures multiset(a + [x] + b) == multiset(a) + multiset{x} + multiset(b)
  {
  }

  lemma Removed(a: seq<JsonObject>, x: JsonObject, b: seq<JsonObject>, others: seq<JsonObject>)
    requires Reorders(a + [x] + b, others + [x])
    ensures Parts(a, b, others)
  {
    ElementsOf(a, x, b);
    assert multiset(others + [x]) == multiset(others) + multiset{x};
    assert multiset(a) + multiset(b) == multiset(a) + multiset{x} + multiset(b) - multiset{x};
    assert multiset(others) == multiset(others) + multiset{x} - multiset{x};
  }

  lemma SplitAtTop(order: seq<JsonObject>, others: seq<JsonObject>, top: JsonObject) returns (before: seq<JsonObject>, after: seq<JsonObject>)
    requires Reorders(order, others + [top])
    ensures order == before + [top] + after && Parts(before, after, others)
  {
    SameElements(order, others + [top]);
    assert top in others + [top] && top in Elements(order);
    var i :| 0 <= i < |order| && order[i] == top;
    before, after := order[..i], order[i + 1..];
    assert order == before + [top] + after;
    Removed(before, top, after, others);
  }

  lemma PartMembers(a: seq<JsonObject>, b: seq<JsonObject>, puts: seq<JsonObject>)
    requires Parts(a, b, puts)
    ensures forall p :: p in puts <==> p in a || p in b
  {
    forall p ensures p in puts <==> p in a || p in b {
      assert p in puts <==> p in multiset(puts);
      assert p in multiset(puts) <==> p in multiset(a) || p in multiset(b);
    }
  }

  lemma KeptKey(ancestor: Option<JsonObject>, current: JsonObject, top: JsonObject, others: seq<JsonObject>, order: seq<JsonObject>,
                names: seq<string>, key: string)
    requires Contenders(others, names) && Contender(top, names) && !HasNumber(current, names[0]) && Below(others, top, names[0])
    requires Changes(BaseOf(ancestor), top, names[0]) && KeepsKey(BaseOf(ancestor), current, top, others, names[0], key)
    requires Reorders(order, others + [top])
    ensures Arrive(ancestor, current, order).Get(key) == top.Get(key)
  {
    var before, after := SplitAtTop(order, others, top);
    PartMembers(before, after, others);
    TopDecides(ancestor, current, before, top, after, names);
    RankedBelow(ancestor, current, before, top, names);
    var s := Arrive(ancestor, current, before);
    if !HasNumber(s, names[0]) {
      MergedKey(BaseOf(ancestor), s, top, key);
      UnrankedKey(ancestor, current, before, names, key);
    }
  }

  // The order in which the greatest put comes first, and the one in which z comes just before it.
  lemma TopFirst(ancestor: Option<JsonObject>, current: JsonObject, top: JsonObject, others: seq<JsonObject>, names: seq<string>, key: string)
    requires Contenders(others, names) && Contender(top, names) && !HasNumber(current, names[0]) && Below(others, top, names[0])
    requires Changes(BaseOf(ancestor), top, names[0])
    ensures Reorders([top] + others, others + [top])
    ensures Arrive(ancestor, current, [top] + others).Get(key) == if Changes(BaseOf(ancestor), top, key) then top.Get(key) else current.Get(key)
  {
    Swapped([top], others);
    TopFirstResult(ancestor, current, top, others, names);
    MergedKey(BaseOf(ancestor), current, top, key);
  }

  lemma Swapped(a: seq<JsonObject>, b: seq<JsonObject>)
    ensures Reorders(a + b, b + a)
  {
    assert multiset(a + b) == multiset(a) + multiset(b) == multiset(b + a);
  }

  lemma TopFirstResult(ancestor: Option<JsonObject>, current: JsonObject, top: JsonObject, others: seq<JsonObject>, names: seq<string>)
    requires Contenders(others, names) && Contender(top, names) && !HasNumber(current, names[0]) && Below(others, top, names[0])
    requires Changes(BaseOf(ancestor), top, names[0])
    ensures Arrive(ancestor, current, [top] + others) == Merged(BaseOf(ancestor), current, top)
  {
    var none: seq<JsonObject> := [];
    TopDecides(ancestor, current, none, top, others, names);
    assert none + [top] == [top];
    assert Arrive(ancestor, current, none) == current;
  }

  lemma MovedReorder(others: seq<JsonObject>, i: nat, top: JsonObject)
    requires i < |others|
    ensures Reorders([others[i]] + [top] + (others[..i] + others[i + 1..]), others + [top])
  {
    var a, z, b := others[..i], others[i], others[i + 1..];
    assert others == a + [z] + b;
    assert multiset(others) == multiset(a) + multiset{z} + multiset(b);
    assert multiset([z] + [top] + (a + b)) == multiset{z} + multiset{top} + (multiset(a) + multiset(b));
    assert multiset(others + [top]) == multiset(others) + multiset{top};
  }

  lemma RestMembers(others: seq<JsonObject>, i: nat)
    requires i < |others|
    ensures forall p :: p in others[..i] + others[i + 1..] ==> p in others
  {
  }

  lemma BeforeTop(ancestor: Option<JsonObject>, current: JsonObject, top: JsonObject, others: seq<JsonObject>, names: seq<string>, z: JsonObject)
    returns (order: seq<JsonObject>)
    requires Contenders(others, names) && Contender(top, names) && !HasNumber(current, names[0]) && Below(others, top, names[0])
    requires Changes(BaseOf(ancestor), top, names[0]) && z in others
    ensures Reorders(order, others + [top])
    ensures Arrive(ancestor, current, order)
         == if Changes(BaseOf(ancestor), z, names[0]) then top else Merged(BaseOf(ancestor), Merged(BaseOf(ancestor), current, z), top)
  {
    var i :| 0 <= i < |others| && others[i] == z;
    var rest := others[..i] + others[i + 1..];
    RestMembers(others, i);
    order := [z] + [top] + rest;
    MovedReorder(others, i, top);
    TopDecides(ancestor, current, [z], top, rest, names);
    RankedBelow(ancestor, current, [z], top, names);
    LeadStep(ancestor, current, z, names);
    assert [z][..0] == [] && z in [z];
  }

  // Where the greatest put need not keep a key, some order ends with another value there.
  lemma UnkeptKey(ancestor: Option<JsonObject>, current: JsonObject, top: JsonObject, others: seq<JsonObject>, names: seq<string>, key: string)
    returns (order: seq<JsonObject>)
    requires Contenders(others, names) && Contender(top, names) && !HasNumber(current, names[0]) && Below(others, top, names[0])
    requires Changes(BaseOf(ancestor), top, names[0]) && !KeepsKey(BaseOf(ancestor), current, top, others, names[0], key)
    ensures Reorders(order, others + [top]) && Arrive(ancestor, current, order).Get(key) != top.Get(key)
  {
    var base := BaseOf(ancestor);
    if current.Get(key) != top.Get(key) {
      order := [top] + others;
      TopFirst(ancestor, current, top, others, names, key);
    } else {
      var z :| z in others && !Changes(base, z, names[0]) && Changes(base, z, key) && z.Get(key) != top.Get(key);
      order := BeforeTop(ancestor, current, top, others, names, z);
      MergedKey(base, Merged(base, current, z), top, key);
      MergedKey(base, current, z, key);
    }
  }

  // ----- every arrival order: the greatest put -----

  // The payload holds the put's number under every field of the order.
  ghost predicate RanksAs(payload: JsonObject, put: JsonObject, names: seq<string>) {
    forall i :: 0 <= i < |names| ==> payload.Get(names[i]) == put.Get(names[i])
  }

  lemma TopIsTop(top: JsonObject, others: seq<JsonObject>, names: seq<string>)
    requires Contenders(others, names) && Contender(top, names) && Below(others, top, names[0])
    ensures Contenders(others + [top], names) && IsTop(Lead(top, names[0]), others + [top], names[0])
    ensures HasNumber(top, names[0]) && top.Get(names[0]) == Some(Num(Lead(top, names[0])))
  {
    assert top in others + [top];
  }

  // Every arrival order ends with the rank of the greatest put, under all its fields, exactly
  // when that put changed the leading field and none of the other ordered fields can be taken
  // from elsewhere.
  lemma GreatestRankSurvivesIff(ancestor: Option<JsonObject>, current: JsonObject, top: JsonObject, others: seq<JsonObject>, names: seq<string>)
    requires Contenders(others, names) && Contender(top, names) && !HasNumber(current, names[0]) && Below(others, top, names[0])
    ensures (forall order :: Reorders(order, others + [top]) ==> RanksAs(Arrive(ancestor, current, order), top, names))
       <==> Changes(BaseOf(ancestor), top, names[0])
            && forall i :: 0 <= i < |names| ==> KeepsKey(BaseOf(ancestor), current, top, others, names[0], names[i])
  {
    TopIsTop(top, others, names);
    if Changes(BaseOf(ancestor), top, names[0]) {
      RankSurvivesIff(ancestor, current, top, others, names);
    } else {
      LeavingFirstLoses(ancestor, current, others + [top], names, Lead(top, names[0]));
      PickedReorder(BaseOf(ancestor), others + [top], names[0]);
    }
  }

  lemma RankSurvivesIff(ancestor: Option<JsonObject>, current: JsonObject, top: JsonObject, others: seq<JsonObject>, names: seq<string>)
    requires Contenders(others, names) && Contender(top, names) && !HasNumber(current, names[0]) && Below(others, top, names[0])
    requires Changes(BaseOf(ancestor), top, names[0])
    ensures (forall order :: Reorders(order, others + [top]) ==> RanksAs(Arrive(ancestor, current, order), top, names))
       <==> forall i :: 0 <= i < |names| ==> KeepsKey(BaseOf(ancestor), current, top, others, names[0], names[i])
  {
    if i :| 0 <= i < |names| && !KeepsKey(BaseOf(ancestor), current, top, others, names[0], names[i]) {
      var order := UnkeptKey(ancestor, current, top, others, names, names[i]);
    } else {
      forall order, i | Reorders(order, others + [top]) && 0 <= i < |names|
        ensures Arrive(ancestor, current, order).Get(names[i]) == top.Get(names[i])
      {
        KeptKey(ancestor, current, top, others, order, names, names[i]);
      }
    }
  }

  // ----- every arrival order: all values -----

  ghost predicate Rivals(base: JsonObject, others: seq<JsonObject>, field: string) {
    exists p :: p in others && Changes(base, p, field)
  }

  // What the other puts change of the key, and the greatest put does not, is what the current
  // payload holds.
  ghost predicate Undisturbed(base: JsonObject, current: JsonObject, top: JsonObject, others: seq<JsonObject>, key: string) {
    Changes(base, top, key) || forall z :: z in others && Changes(base, z, key) ==> z.Get(key) == current.Get(key)
  }

  ghost predicate Settled(base: JsonObject, current: JsonObject, top: JsonObject, others: seq<JsonObject>, field: string, key: string) {
    if Rivals(base, others, field) then KeepsKey(base, current, top, others, field, key) else Undisturbed(base, current, top, others, key)
  }

  // The keys that some payload holds.
  function HeldKeys(current: JsonObject, top: JsonObject, others: seq<JsonObject>): set<string> {
    current.values.Keys + top.values.Keys + set z, key | z in others && key in z.values :: key
  }

  ghost predicate AllSettled(base: JsonObject, current: JsonObject, top: JsonObject, others: seq<JsonObject>, field: string) {
    forall key :: key in HeldKeys(current, top, others) ==> Settled(base, current, top, others, field, key)
  }

  // Any other key is settled.
  lemma UnheldKeyIsSettled(base: JsonObject, current: JsonObject, top: JsonObject, others: seq<JsonObject>, field: string, key: string)
    requires key !in HeldKeys(current, top, others)
    ensures Settled(base, current, top, others, field, key)
  {
    forall z | z in others ensures key !in z.values {
      assert key in z.values ==> key in HeldKeys(current, top, others);
    }
  }

  lemma SettledKeys(base: JsonObject, current: JsonObject, top: JsonObject, others: seq<JsonObject>, field: string)
    ensures AllSettled(base, current, top, others, field) <==> forall key :: Settled(base, current, top, others, field, key)
  {
    if AllSettled(base, current, top, others, field) {
      forall key ensures Settled(base, current, top, others, field, key) {
        if key !in HeldKeys(current, top, others) {
          UnheldKeyIsSettled(base, current, top, others, field, key);
        }
      }
    }
  }

  ghost predicate AllAgree(ancestor: Option<JsonObject>, current: JsonObject, puts: seq<JsonObject>) {
    forall a, b :: Reorders(a, puts) && Reorders(b, puts) ==> Arrive(ancestor, current, a).values == Arrive(ancestor, current, b).values
  }

  lemma SameByKey(a: RawObject, b: RawObject)
    requires forall key :: a.Get(key) == b.Get(key)
    ensures a.values == b.values
  {
    forall key ensures key in a.values <==> key in b.values {
      assert a.Get(key) == b.Get(key);
    }
    forall key | key in a.values ensures a.values[key] == b.values[key] {
      assert a.Get(key) == b.Get(key);
    }
  }

  // Where every key is settled, every order ends with these values.
  lemma SettledOrder(ancestor: Option<JsonObject>, current: JsonObject, top: JsonObject, others: seq<JsonObject>, order: seq<JsonObject>, names: seq<string>)
    requires Contenders(others, names) && Contender(top, names) && !HasNumber(current, names[0]) && Below(others, top, names[0])
    requires Changes(BaseOf(ancestor), top, names[0]) && Reorders(order, others + [top])
    requires forall key :: Settled(BaseOf(ancestor), current, top, others, names[0], key)
    ensures Arrive(ancestor, current, order).values
         == if Rivals(BaseOf(ancestor), others, names[0]) then top.values else Merged(BaseOf(ancestor), current, top).values
  {
    var base, r := BaseOf(ancestor), Arrive(ancestor, current, order);
    if Rivals(base, others, names[0]) {
      forall key ensures r.Get(key) == top.Get(key) {
        assert Settled(base, current, top, others, names[0], key);
        KeptKey(ancestor, current, top, others, order, names, key);
      }
      SameByKey(r, top);
    } else {
      forall key ensures r.Get(key) == Merged(base, current, top).Get(key) {
        assert Settled(base, current, top, others, names[0], key);
        UndisturbedKey(ancestor, current, top, others, order, names, key);
      }
      SameByKey(r, Merged(base, current, top));
    }
  }

  lemma UndisturbedKey(ancestor: Option<JsonObject>, current: JsonObject, top: JsonObject, others: seq<JsonObject>, order: seq<JsonObject>,
                       names: seq<string>, key: string)
    requires Contenders(others, names) && Contender(top, names) && !HasNumber(current, names[0]) && Below(others, top, names[0])
    requires Changes(BaseOf(ancestor), top, names[0]) && Reorders(order, others + [top])
    requires !Rivals(BaseOf(ancestor), others, names[0]) && Undisturbed(BaseOf(ancestor), current, top, others, key)
    ensures Arrive(ancestor, current, order).Get(key) == Merged(BaseOf(ancestor), current, top).Get(key)
  {
    var before, after := SplitAtTop(order, others, top);
    PartMembers(before, after, others);
    TopDecides(ancestor, current, before, top, after, names);
    UnrankedKey(ancestor, current, before, names, key);
    MergedKey(BaseOf(ancestor), Arrive(ancestor, current, before), top, key);
    MergedKey(BaseOf(ancestor), current, top, key);
  }

  // Where some key is not settled, two orders end with different values there.
  lemma UnsettledKey(ancestor: Option<JsonObject>, current: JsonObject, top: JsonObject, others: seq<JsonObject>, names: seq<string>, key: string)
    returns (a: seq<JsonObject>, b: seq<JsonObject>)
    requires Contenders(others, names) && Contender(top, names) && !HasNumber(current, names[0]) && Below(others, top, names[0])
    requires Changes(BaseOf(ancestor), top, names[0]) && !Settled(BaseOf(ancestor), current, top, others, names[0], key)
    ensures Reorders(a, others + [top]) && Reorders(b, others + [top])
    ensures Arrive(ancestor, current, a).Get(key) != Arrive(ancestor, current, b).Get(key)
  {
    var base := BaseOf(ancestor);
    if Rivals(base, others, names[0]) {
      var p :| p in others && Changes(base, p, names[0]);
      a := BeforeTop(ancestor, current, top, others, names, p);
      b := UnkeptKey(ancestor, current, top, others, names, key);
    } else {
      var z :| z in others && Changes(base, z, key) && z.Get(key) != current.Get(key);
      a := [top] + others;
      TopFirst(ancestor, current, top, others, names, key);
      b := BeforeTop(ancestor, current, top, others, names, z);
      MergedKey(base, Merged(base, current, z), top, key);
      MergedKey(base, current, z, key);
    }
  }

  lemma NotAllAgree(ancestor: Option<JsonObject>, current: JsonObject, puts: seq<JsonObject>, a: seq<JsonObject>, b: seq<JsonObject>, key: string)
    requires Reorders(a, puts) && Reorders(b, puts) && Arrive(ancestor, current, a).Get(key) != Arrive(ancestor, current, b).Get(key)
    ensures !AllAgree(ancestor, current, puts)
  {
  }

  lemma LoneOrder(order: seq<JsonObject>, top: JsonObject)
    requires Reorders(order, [top])
    ensures order == [top]
  {
    SameElements(order, [top]);
    assert order[0] in Elements(order) && Elements([top]) == {top};
  }

  // On a payload with a number under the leading field, a put greater than all the others
  // alone decides.
  lemma OnlyTopMatters(ancestor: Option<JsonObject>, current: JsonObject, top: JsonObject, others: seq<JsonObject>, order: seq<JsonObject>, names: seq<string>)
    requires Contenders(others, names) && Contender(top, names) && HasNumber(current, names[0]) && Below(others, top, names[0])
    requires Reorders(order, others + [top])
    ensures Some(Arrive(ancestor, current, order)) == ThreeWayMerge(ancestor, Some(current), Some(top))
  {
    var before, after := SplitAtTop(order, others, top);
    PartMembers(before, after, others);
    var f, s := names[0], Arrive(ancestor, current, before);
    ArriveSplit(ancestor, current, before + [top], after);
    ArriveSplit(ancestor, current, before, [top]);
    assert [top][..0] == [];
    LeadStep(ancestor, s, top, names);
    LeadStep(ancestor, current, top, names);
    if Lead(top, f) > Lead(current, f) {
      LesserBefore(ancestor, current, before, top, names);
    } else {
      LesserStay(ancestor, current, before, names);
    }
    LeadOfStep(ancestor, s, top, names);
    LesserStay(ancestor, Arrive(ancestor, s, [top]), after, names);
  }

  lemma LesserBefore(ancestor: Option<JsonObject>, current: JsonObject, before: seq<JsonObject>, top: JsonObject, names: seq<string>)
    requires Contenders(before, names) && HasNumber(current, names[0]) && Below(before, top, names[0])
    requires Lead(top, names[0]) > Lead(current, names[0])
    ensures var s := Arrive(ancestor, current, before); HasNumber(s, names[0]) && Lead(s, names[0]) < Lead(top, names[0])
  {
    if before != [] {
      var x := TopOf(before, names[0]);
      RankedNumber(ancestor, current, before, names, x);
      var p :| p in before && Lead(p, names[0]) == x;
    }
  }

  // A put greater than all the others, whatever these and the current payload are: all arrival
  // orders end with the same values exactly when there are no others, or the current payload
  // holds a number under the leading field, or the greatest put changed that field and every
  // key is settled.
  lemma ValuesAgreeIff(ancestor: Option<JsonObject>, current: JsonObject, top: JsonObject, others: seq<JsonObject>, names: seq<string>)
    requires Contenders(others, names) && Contender(top, names) && Below(others, top, names[0])
    ensures AllAgree(ancestor, current, others + [top])
       <==> others == [] || HasNumber(current, names[0])
            || (Changes(BaseOf(ancestor), top, names[0]) && AllSettled(BaseOf(ancestor), current, top, others, names[0]))
  {
    if others == [] {
      forall order | Reorders(order, others + [top]) ensures order == [top] {
        assert others + [top] == [top];
        LoneOrder(order, top);
      }
    } else if HasNumber(current, names[0]) {
      forall order | Reorders(order, others + [top])
        ensures Some(Arrive(ancestor, current, order)) == ThreeWayMerge(ancestor, Some(current), Some(top))
      {
        OnlyTopMatters(ancestor, current, top, others, order, names);
      }
    } else {
      UnrankedValuesAgreeIff(ancestor, current, top, others, names);
      SettledKeys(BaseOf(ancestor), current, top, others, names[0]);
    }
  }

  lemma UnrankedValuesAgreeIff(ancestor: Option<JsonObject>, current: JsonObject, top: JsonObject, others: seq<JsonObject>, names: seq<string>)
    requires Contenders(others, names) && Contender(top, names) && !HasNumber(current, names[0]) && Below(others, top, names[0]) && others != []
    ensures AllAgree(ancestor, current, others + [top])
       <==> Changes(BaseOf(ancestor), top, names[0]) && forall key :: Settled(BaseOf(ancestor), current, top, others, names[0], key)
  {
    if !Changes(BaseOf(ancestor), top, names[0]) {
      LeavingTopDisagrees(ancestor, current, top, others, names);
    } else if key :| !Settled(BaseOf(ancestor), current, top, others, names[0], key) {
      var a, b := UnsettledKey(ancestor, current, top, others, names, key);
      NotAllAgree(ancestor, current, others + [top], a, b, key);
    } else {
      forall a, b | Reorders(a, others + [top]) && Reorders(b, others + [top])
        ensures Arrive(ancestor, current, a).values == Arrive(ancestor, current, b).values
      {
        SettledOrder(ancestor, current, top, others, a, names);
        SettledOrder(ancestor, current, top, others, b, names);
      }
    }
  }

  lemma LeavingTopDisagrees(ancestor: Option<JsonObject>, current: JsonObject, top: JsonObject, others: seq<JsonObject>, names: seq<string>)
    requires Contenders(others, names) && Contender(top, names) && !HasNumber(current, names[0]) && Below(others, top, names[0])
    requires others != [] && !Changes(BaseOf(ancestor), top, names[0])
    ensures !AllAgree(ancestor, current, others + [top])
  {
    var base, f, puts := BaseOf(ancestor), names[0], others + [top];
    TopIsTop(top, others, names);
    LeavingFirstLoses(ancestor, current, puts, names, Lead(top, f));
    assert others[0] in others && HasNumber(others[0], f) && others[0] in puts;
    ChangingFirstWins(ancestor, current, puts, names, Lead(top, f), others[0]);
    PickedReorder(base, puts, f);
    NotAllAgree(ancestor, current, puts, LeavingFirst(base, puts, f), ChangingFirst(base, puts, f), f);
  }

  // ----- two puts -----

  lemma PartsOfOne(a: seq<JsonObject>, b: seq<JsonObject>, x: JsonObject)
    requires Parts(a, b, [x])
    ensures (a == [x] && b == []) || (a == [] && b == [x])
  {
    assert |multiset(a)| + |multiset(b)| == |multiset(a) + multiset(b)| == |multiset([x])| == 1;
    assert |a| + |b| == 1;
    PartMembers(a, b, [x]);
    if |a| == 1 {
      assert a[0] in a && a == [a[0]] && a[0] in [x];
    } else {
      assert b[0] in b && b == [b[0]] && b[0] in [x];
    }
  }

  lemma OrdersOfTwo(order: seq<JsonObject>, low: JsonObject, high: JsonObject)
    requires Reorders(order, [low, high])
    ensures order == [low, high] || order == [high, low]
  {
    assert [low, high] == [low] + [high];
    var before, after := SplitAtTop(order, [low], high);
    PartsOfOne(before, after, low);
  }

  // The same for a single lesser put.
  predicate PairSettled(base: JsonObject, current: JsonObject, low: JsonObject, high: JsonObject, field: string, key: string) {
    Changes(base, high, key)
    || if Changes(base, low, field) then current.Get(key) == high.Get(key) else Changes(base, low, key) ==> current.Get(key) == low.Get(key)
  }

  // What two puts leave on a payload without a number under the leading field. The greater one
  // survives if it comes last; if it comes first, exactly when it changed the field; and the
  // values of both orders agree exactly when it did and every key is settled.
  lemma UnrankedCurrentNeedsOrder(ancestor: Option<JsonObject>, current: JsonObject, low: JsonObject, high: JsonObject, names: seq<string>)
    requires names != [] && Contender(low, names) && Contender(high, names) && !HasNumber(current, names[0])
    requires Lead(low, names[0]) < Lead(high, names[0])
    ensures Arrive(ancestor, current, [low, high]).Get(names[0]) == high.Get(names[0])
    ensures Arrive(ancestor, current, [high, low]).Get(names[0])
         == if Changes(BaseOf(ancestor), high, names[0]) then high.Get(names[0]) else low.Get(names[0])
    ensures Arrive(ancestor, current, [low, high]).values == Arrive(ancestor, current, [high, low]).values
       <==> Changes(BaseOf(ancestor), high, names[0]) && forall key :: PairSettled(BaseOf(ancestor), current, low, high, names[0], key)
  {
    LeadOfTwo(ancestor, current, low, high, names);
    LeadOfTwo(ancestor, current, high, low, names);
    assert HasNumber(low, names[0]) && HasNumber(high, names[0]);
    assert [low] + [high] == [low, high];
    ValuesAgreeIff(ancestor, current, high, [low], names);
    TwoAgree(ancestor, current, low, high);
    SettledKeys(BaseOf(ancestor), current, high, [low], names[0]);
    forall key ensures Settled(BaseOf(ancestor), current, high, [low], names[0], key)
      <==> PairSettled(BaseOf(ancestor), current, low, high, names[0], key)
    {
      TwoSettled(BaseOf(ancestor), current, low, high, names[0], key);
    }
  }

  lemma TwoSettled(base: JsonObject, current: JsonObject, low: JsonObject, high: JsonObject, field: string, key: string)
    ensures Settled(base, current, high, [low], field, key) <==> PairSettled(base, current, low, high, field, key)
  {
    assert low in [low] && forall z :: z in [low] ==> z == low;
  }

  lemma TwoAgree(ancestor: Option<JsonObject>, current: JsonObject, low: JsonObject, high: JsonObject)
    ensures AllAgree(ancestor, current, [low, high])
       <==> Arrive(ancestor, current, [low, high]).values == Arrive(ancestor, current, [high, low]).values
  {
    TwoReorders(low, high);
    if Arrive(ancestor, current, [low, high]).values == Arrive(ancestor, current, [high, low]).values {
      forall a, b | Reorders(a, [low, high]) && Reorders(b, [low, high])
        ensures Arrive(ancestor, current, a).values == Arrive(ancestor, current, b).values
      {
        OrdersOfTwo(a, low, high);
        OrdersOfTwo(b, low, high);
      }
    }
  }

  lemma TwoReorders(low: JsonObject, high: JsonObject)
    ensures Reorders([low, high], [low, high]) && Reorders([high, low], [low, high])
  {
    assert [high, low] == [high] + [low] && [low, high] == [low] + [high];
    Swapped([high], [low]);
  }

  lemma ArriveTwo(ancestor: Option<JsonObject>, current: JsonObject, a: JsonObject, b: JsonObject)
    ensures Some(Arrive(ancestor, current, [a, b])) == ThreeWayMerge(ancestor, ThreeWayMerge(ancestor, Some(current), Some(a)), Some(b))
  {
    var none: seq<JsonObject> := [];
    assert [a, b][..1] == [a] && [a][..0] == none;
    assert Arrive(ancestor, current, none) == current;
  }

  lemma LeadOfTwo(ancestor: Option<JsonObject>, current: JsonObject, a: JsonObject, b: JsonObject, names: seq<string>)
    requires names != [] && Contender(a, names) && Contender(b, names) && !HasNumber(current, names[0])
    ensures Arrive(ancestor, current, [a, b]).Get(names[0])
         == if Changes(BaseOf(ancestor), a, names[0]) then Some(Num(Max(Lead(a, names[0]), Lead(b, names[0]))))
            else if Changes(BaseOf(ancestor), b, names[0]) then b.Get(names[0]) else current.Get(names[0])
  {
    ArriveTwo(ancestor, current, a, b);
    LeadOfStep(ancestor, current, a, names);
    LeadOfStep(ancestor, ThreeWayMerge(ancestor, Some(current), Some(a)).value, b, names);
    assert HasNumber(a, names[0]) && HasNumber(b, names[0]);
  }

  // ----- an input -----

  function OneField(x: string, value: Json): JsonObject {
    assert Lists([x], {x}) by {
      assert [x][..0] == [] && {x} - {x} == {};
    }
    assert (map[x := value]).Keys == {x};
    Object([x], map[x := value])
  }

  const SYNC: string := "_sync"

  // The payload with a declaration of this order.
  function Declaring(fields: JsonObject, names: seq<string>): (put: JsonObject)
    ensures forall key :: put.Get(key) == if key == SYNC then Some(OrderDirective(Names(names))) else fields.Get(key)
  {
    var directive := OrderDirective(Names(names));
    assert fields.values[SYNC := directive].Keys == fields.values.Keys + {SYNC};
    assert SYNC in fields.values ==> fields.values.Keys + {SYNC} == fields.values.Keys;
    assert [SYNC][..0] == [] && {SYNC} - {SYNC} == {};
    assert SYNC !in fields.values ==> Lists(fields.keys + [SYNC], fields.values.Keys + {SYNC}) by {
      if SYNC !in fields.values {
        ListsConcat(fields.keys, [SYNC], fields.values.Keys, {SYNC});
      }
    }
    fields.Put(SYNC, directive)
  }

  lemma DeclaringContends(fields: JsonObject, names: seq<string>)
    requires SYNC !in names && 1 <= |names| <= MAX_ORDER_FIELDS
    requires forall i :: 0 <= i < |names| ==> HasNumber(fields, names[i])
    ensures Contender(Declaring(fields, names), names)
  {
    var put := Declaring(fields, names);
    ReadDirective(put, Names(names));
    forall i | 0 <= i < |names| ensures HasNumber(put, names[i]) {
      assert put.Get(names[i]) == fields.Get(names[i]);
    }
  }

  // A put of the number x under f.
  function PutOfF(x: real): JsonObject { Declaring(OneField("f", Num(x)), ["f"]) }

  lemma PutOfFContends(x: real)
    ensures Contender(PutOfF(x), ["f"]) && PutOfF(x).Get("f") == Some(Num(x)) && Lead(PutOfF(x), "f") == x
  {
    var f := "f";
    assert |SYNC| == 5 && |f| == 1;
    DeclaringContends(OneField(f, Num(x)), [f]);
    assert PutOfF(x).Get(f) == OneField(f, Num(x)).Get(f);
  }

  // The ancestor holds 2 under f and the current payload has lost the field. A put that keeps
  // the 2 and one that lowers it to 1 arrive: if the greater one comes first it is lost.
  lemma {:induction false} GreatestCanLose()
    ensures Contender(PutOfF(2.0), ["f"]) && Contender(PutOfF(1.0), ["f"])
    ensures Arrive(Some(OneField("f", Num(2.0))), EMPTY, [PutOfF(1.0), PutOfF(2.0)]) == PutOfF(2.0)
    ensures Arrive(Some(OneField("f", Num(2.0))), EMPTY, [PutOfF(2.0), PutOfF(1.0)]).Get("f") == Some(Num(1.0))
  {
    var f, ancestor, high, low := "f", Some(OneField("f", Num(2.0))), PutOfF(2.0), PutOfF(1.0);
    PutOfFContends(1.0);
    PutOfFContends(2.0);
    UnrankedCurrentNeedsOrder(ancestor, EMPTY, low, high, [f]);
    ArriveTwo(ancestor, EMPTY, low, high);
    LeadOfStep(ancestor, EMPTY, low, [f]);
    LeadStep(ancestor, ThreeWayMerge(ancestor, Some(EMPTY), Some(low)).value, high, [f]);
  }
}
