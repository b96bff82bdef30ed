// Competing puts on one record of the log: the client-declared order decides them
// independently of the order in which the server accepts them.
module ContestedRecord {
  import opened Base
  import opened Json
  import opened Merge
  import opened ConflictOrders
  import opened UnrankedContest
  import opened SyncLog

  // Accepting more mutations one at a time, after a log.
  function Extended(log: Log, accepted: seq<Accepted>): Log {
    if accepted == [] then log else
      var before := Extended(log, accepted[..|accepted| - 1]);
      before + [Outcome(before, accepted[|accepted| - 1])]
  }

  lemma ExtendedAppend(log: Log, accepted: seq<Accepted>, a: Accepted)
    ensures Extended(log, accepted + [a]) == Extended(log, accepted) + [Outcome(Extended(log, accepted), a)]
  {
    assert (accepted + [a])[..|accepted|] == accepted;
  }

  // Extending the serial log of some mutations is the serial log of them all.
  lemma {:induction false} SerialExtends(first: seq<Accepted>, more: seq<Accepted>)
    ensures Serial(first + more) == Extended(Serial(first), more)
  {
    if more == [] {
      assert first + more == first;
    } else {
      var before, last := more[..|more| - 1], more[|more| - 1];
      assert before + [last] == more && first + before + [last] == first + more;
      SerialExtends(first, before);
      SerialAppend(first + before, last);
      ExtendedAppend(Serial(first), before, last);
    }
  }

  function TargetOf(a: Accepted): RecordKey { Target(a.owner, a.mutation) }

  // A put of this order on the given base, stamped with a revision that is not the base.
  predicate Contends(a: Accepted, base: Option<string>, names: seq<string>) {
    && a.mutation.operation == PutRecord && a.mutation.baseRevision == base && Some(a.revision) != base
    && a.mutation.payload.Some? && Contender(a.mutation.payload.value, names)
  }

  // Whatever else is accepted, all mutations of this record contend on one base.
  ghost predicate AllContend(accepted: seq<Accepted>, key: RecordKey, base: Option<string>, names: seq<string>) {
    forall a :: a in accepted && TargetOf(a) == key ==> Contends(a, base, names)
  }

  // The payloads put on a record, in the order of acceptance.
  function PutsOn(accepted: seq<Accepted>, key: RecordKey, names: seq<string>): (puts: seq<JsonObject>)
    ensures forall p :: p in puts ==> Contender(p, names)
  {
    if accepted == [] then [] else
      var n := |accepted| - 1;
      var m := accepted[n].mutation;
      var before := PutsOn(accepted[..n], key, names);
      if TargetOf(accepted[n]) == key && m.payload.Some? && Contender(m.payload.value, names) then before + [m.payload.value] else before
  }

  function BasePayload(log: Log, key: RecordKey, base: Option<string>): Option<JsonObject> {
    match base
    case None => None
    case Some(revision) => CurrentPayload(GetVersion(log, key, revision))
  }

  // The first put is stored as it is: its base is the current version, or there is no live one.
  predicate FoundFresh(log: Log, key: RecordKey, base: Option<string>) {
    RevisionOf(GetCurrent(log, key)) == base || CurrentPayload(GetCurrent(log, key)).None?
  }

  // What the record holds after the puts.
  function Contested(log: Log, key: RecordKey, base: Option<string>, puts: seq<JsonObject>): Option<JsonObject> {
    var current := GetCurrent(log, key);
    if puts == [] then CurrentPayload(current)
    else if FoundFresh(log, key, base) then Some(ArriveFresh(BasePayload(log, key, base), puts))
    else Some(Arrive(BasePayload(log, key, base), CurrentPayload(current).value, puts))
  }

  lemma CurrentAfterRow(log: Log, v: Version, key: RecordKey)
    ensures GetCurrent(log + [v], key) == if RecordOf(v) == key then Some(v) else GetCurrent(log, key)
  {
    assert (log + [v])[..|log|] == log;
  }

  lemma BaseAfterRow(log: Log, v: Version, key: RecordKey, base: Option<string>)
    requires Some(v.revision) != base
    ensures BasePayload(log + [v], key, base) == BasePayload(log, key, base)
  {
    if base.Some? {
      var a, b := VersionIndex(log + [v], key, base.value), VersionIndex(log, key, base.value);
      assert b < |log| ==> (log + [v])[b] == log[b];
      assert a < |log| ==> (log + [v])[a] == log[a];
    }
  }

  // One more put: what is stored follows the same rule as the contest.
  lemma ContestOneMore(log: Log, key: RecordKey, base: Option<string>, puts: seq<JsonObject>, put: JsonObject)
    ensures Contested(log, key, base, puts + [put])
         == if puts == [] && FoundFresh(log, key, base) then Some(put)
            else ThreeWayMerge(BasePayload(log, key, base), Contested(log, key, base, puts), Some(put))
  {
    var ancestor := BasePayload(log, key, base);
    if !FoundFresh(log, key, base) {
      ArriveOneMore(ancestor, CurrentPayload(GetCurrent(log, key)).value, puts, put);
    } else if puts != [] {
      ArriveOneMore(ancestor, puts[0], puts[1..], put);
      assert (puts + [put])[1..] == puts[1..] + [put];
    }
  }

  // What the log holds of a contested record, after some puts on it.
  ghost predicate Holds(after: Log, log: Log, key: RecordKey, base: Option<string>, puts: seq<JsonObject>) {
    && CurrentPayload(GetCurrent(after, key)) == Contested(log, key, base, puts)
    && (puts == [] ==> RevisionOf(GetCurrent(after, key)) == RevisionOf(GetCurrent(log, key)))
    && (puts != [] ==> RevisionOf(GetCurrent(after, key)) != base)
    && BasePayload(after, key, base) == BasePayload(log, key, base)
  }

  lemma PutKeepsHolding(log: Log, before: Log, a: Accepted, base: Option<string>, puts: seq<JsonObject>, names: seq<string>)
    requires Holds(before, log, TargetOf(a), base, puts) && Contends(a, base, names)
    ensures Holds(before + [Outcome(before, a)], log, TargetOf(a), base, puts + [a.mutation.payload.value])
  {
    CurrentAfterRow(before, Outcome(before, a), TargetOf(a));
    BaseAfterRow(before, Outcome(before, a), TargetOf(a), base);
    assert Ancestor(before, a.owner, a.mutation) == BasePayload(log, TargetOf(a), base);
    ContestOneMore(log, TargetOf(a), base, puts, a.mutation.payload.value);
  }

  // Accepting the mutations into the log leaves what the contest of their payloads leaves.
  lemma {:induction false} LogHoldsContested(log: Log, accepted: seq<Accepted>, key: RecordKey, base: Option<string>, names: seq<string>)
    requires AllContend(accepted, key, base, names)
    requires forall a :: a in accepted ==> Some(a.revision) != base
    ensures Holds(Extended(log, accepted), log, key, base, PutsOn(accepted, key, names))
  {
    if accepted != [] {
      var n := |accepted| - 1;
      var a, before := accepted[n], Extended(log, accepted[..n]);
      assert forall x :: x in accepted[..n] ==> x in accepted;
      assert a in accepted;
      LogHoldsContested(log, accepted[..n], key, base, names);
      if TargetOf(a) == key {
        PutKeepsHolding(log, before, a, base, PutsOn(accepted[..n], key, names), names);
      } else {
        CurrentAfterRow(before, Outcome(before, a), key);
        BaseAfterRow(before, Outcome(before, a), key, base);
      }
    }
  }

  // Two orders of acceptance of the same puts, on the current version of a record, or where it
  // does not exist or is deleted: both end with the greatest rank among the puts, and with the same
  // payload when the ranks are pairwise distinct.
  lemma {:induction false} FreshPutsConverge(log: Log, a: seq<Accepted>, b: seq<Accepted>, key: RecordKey, base: Option<string>, names: seq<string>)
    requires AllContend(a, key, base, names) && AllContend(b, key, base, names)
    requires forall x :: x in a + b ==> Some(x.revision) != base
    requires multiset(PutsOn(a, key, names)) == multiset(PutsOn(b, key, names)) && PutsOn(a, key, names) != []
    requires FoundFresh(log, key, base)
    ensures var x := CurrentPayload(GetCurrent(Extended(log, a), key));
      var y := CurrentPayload(GetCurrent(Extended(log, b), key));
      var puts := Elements(PutsOn(a, key, names));
      && x.Some? && y.Some?
      && Greatest(x.value, puts, names) && Rank(x.value, names) == Rank(y.value, names)
      && (DistinctRanks(puts, names) ==> x == y)
  {
    assert forall x :: x in a || x in b ==> x in a + b;
    LogHoldsContested(log, a, key, base, names);
    LogHoldsContested(log, b, key, base, names);
    FreshArrivalOrderIrrelevant(BasePayload(log, key, base), PutsOn(a, key, names), PutsOn(b, key, names), names);
  }

  // The same on a base that is already stale, the live current version taking part.
  lemma {:induction false} StalePutsConverge(log: Log, a: seq<Accepted>, b: seq<Accepted>, key: RecordKey, base: Option<string>, names: seq<string>)
    requires AllContend(a, key, base, names) && AllContend(b, key, base, names)
    requires forall x :: x in a + b ==> Some(x.revision) != base
    requires multiset(PutsOn(a, key, names)) == multiset(PutsOn(b, key, names))
    requires !FoundFresh(log, key, base) && Ranked(CurrentPayload(GetCurrent(log, key)).value, names)
    ensures var x := CurrentPayload(GetCurrent(Extended(log, a), key));
      var y := CurrentPayload(GetCurrent(Extended(log, b), key));
      var entrants := Elements(PutsOn(a, key, names)) + {CurrentPayload(GetCurrent(log, key)).value};
      && x.Some? && y.Some?
      && Greatest(x.value, entrants, names) && Rank(x.value, names) == Rank(y.value, names)
      && (DistinctRanks(entrants, names) ==> x == y)
  {
    assert forall x :: x in a || x in b ==> x in a + b;
    LogHoldsContested(log, a, key, base, names);
    LogHoldsContested(log, b, key, base, names);
    StaleArrivalOrderIrrelevant(BasePayload(log, key, base), CurrentPayload(GetCurrent(log, key)).value,
      PutsOn(a, key, names), PutsOn(b, key, names), names);
  }

  // ----- every order of acceptance -----

  lemma {:induction false} PutsOnConcat(a: seq<Accepted>, b: seq<Accepted>, key: RecordKey, names: seq<string>)
    ensures PutsOn(a + b, key, names) == PutsOn(a, key, names) + PutsOn(b, key, names)
  {
    if b == [] {
      assert a + b == a;
    } else {
      PutsOnConcat(a, b[..|b| - 1], key, names);
      assert (a + b)[..|a + b| - 1] == a + b[..|b| - 1];
    }
  }

  function Without(a: seq<Accepted>, i: nat): seq<Accepted>
    requires i < |a|
  {
    a[..i] + a[i + 1..]
  }

  // Taking one acceptance out takes out its put, if it is one.
  lemma PutsOnWithout(a: seq<Accepted>, i: nat, key: RecordKey, names: seq<string>)
    requires i < |a|
    ensures multiset(PutsOn(a, key, names)) == multiset(PutsOn(Without(a, i), key, names)) + multiset(PutsOn([a[i]], key, names))
  {
    assert a == a[..i] + [a[i]] + a[i + 1..];
    PutsOnConcat(a[..i] + [a[i]], a[i + 1..], key, names);
    PutsOnConcat(a[..i], [a[i]], key, names);
    PutsOnConcat(a[..i], a[i + 1..], key, names);
  }

  lemma WithoutLast(b: seq<Accepted>, a: seq<Accepted>) returns (i: nat)
    requires multiset(b) == multiset(a) && b != []
    ensures i < |a| && a[i] == b[|b| - 1] && multiset(b[..|b| - 1]) == multiset(Without(a, i))
  {
    var x := b[|b| - 1];
    assert b == b[..|b| - 1] + [x];
    assert x in multiset(b) && x in multiset(a);
    i :| 0 <= i < |a| && a[i] == x;
    OneTakenOut(a, i);
    assert multiset(b) == multiset(b[..|b| - 1]) + multiset{x};
    assert multiset(b[..|b| - 1]) == multiset(b) - multiset{x} == multiset(a) - multiset{x} == multiset(Without(a, i));
  }

  lemma OneTakenOut(a: seq<Accepted>, i: nat)
    requires i < |a|
    ensures multiset(a) == multiset(Without(a, i)) + multiset{a[i]} && |Without(a, i)| == |a| - 1
  {
    assert a == a[..i] + [a[i]] + a[i + 1..];
  }

  // Accepting in another order is putting in another order.
  lemma {:induction false} ReorderedPuts(b: seq<Accepted>, a: seq<Accepted>, key: RecordKey, names: seq<string>)
    requires multiset(b) == multiset(a)
    ensures Reorders(PutsOn(b, key, names), PutsOn(a, key, names))
  {
    if b == [] {
      assert |multiset(a)| == |a|;
    } else {
      var before, last := b[..|b| - 1], b[|b| - 1];
      assert before + [last] == b;
      var i := WithoutLast(b, a);
      ReorderedPuts(before, Without(a, i), key, names);
      PutsOnWithout(a, i, key, names);
      PutsOnConcat(before, [last], key, names);
    }
  }

  // And every order of the puts is the order of some acceptance of the same mutations.
  lemma {:induction false} OrderOfAcceptance(a: seq<Accepted>, order: seq<JsonObject>, key: RecordKey, names: seq<string>) returns (b: seq<Accepted>)
    requires Reorders(order, PutsOn(a, key, names))
    ensures multiset(b) == multiset(a) && PutsOn(b, key, names) == order
    decreases |order|
  {
    if order == [] {
      b := a;
      assert |multiset(PutsOn(a, key, names))| == |PutsOn(a, key, names)|;
    } else {
      var before, last := order[..|order| - 1], order[|order| - 1];
      assert before + [last] == order;
      var i := TakeOut(a, before, last, key, names);
      var rest := OrderOfAcceptance(Without(a, i), before, key, names);
      b := rest + [a[i]];
      PutsOnConcat(rest, [a[i]], key, names);
      OneTakenOut(a, i);
      assert multiset(b) == multiset(rest) + multiset{a[i]};
    }
  }

  // The acceptance of the last put, without which the others remain.
  lemma TakeOut(a: seq<Accepted>, before: seq<JsonObject>, last: JsonObject, key: RecordKey, names: seq<string>) returns (i: nat)
    requires Reorders(before + [last], PutsOn(a, key, names))
    ensures i < |a| && PutsOn([a[i]], key, names) == [last] && Reorders(before, PutsOn(Without(a, i), key, names))
  {
    assert last in multiset(before + [last]) && last in multiset(PutsOn(a, key, names));
    i := PutIsAccepted(a, last, key, names);
    PutsOnWithout(a, i, key, names);
    assert multiset(before + [last]) == multiset(before) + multiset{last};
    assert multiset(before) == multiset(before) + multiset{last} - multiset{last};
    assert multiset(PutsOn(Without(a, i), key, names)) == multiset(PutsOn(a, key, names)) - multiset{last};
  }

  lemma {:induction false} PutIsAccepted(a: seq<Accepted>, put: JsonObject, key: RecordKey, names: seq<string>) returns (i: nat)
    requires put in PutsOn(a, key, names)
    ensures i < |a| && PutsOn([a[i]], key, names) == [put]
  {
    var n := |a| - 1;
    assert a == a[..n] + [a[n]];
    PutsOnConcat(a[..n], [a[n]], key, names);
    if put in PutsOn(a[..n], key, names) {
      i := PutIsAccepted(a[..n], put, key, names);
    } else {
      i := n;
      assert |PutsOn([a[n]], key, names)| <= 1;
    }
  }

  // Contending mutations, none stamped with the base.
  ghost predicate Contest(accepted: seq<Accepted>, key: RecordKey, base: Option<string>, names: seq<string>) {
    AllContend(accepted, key, base, names) && forall a :: a in accepted ==> Some(a.revision) != base
  }

  lemma ReorderedContest(b: seq<Accepted>, a: seq<Accepted>, key: RecordKey, base: Option<string>, names: seq<string>)
    requires multiset(b) == multiset(a) && Contest(a, key, base, names)
    ensures Contest(b, key, base, names)
  {
    forall x | x in b ensures x in a {
      assert x in multiset(b) && x in multiset(a);
    }
  }

  // On a live current version that is not the base, accepting in any order leaves what the puts
  // leave in their order.
  lemma AcceptanceIsArrival(log: Log, b: seq<Accepted>, a: seq<Accepted>, key: RecordKey, base: Option<string>, names: seq<string>)
    requires Contest(a, key, base, names) && !FoundFresh(log, key, base) && multiset(b) == multiset(a)
    ensures Reorders(PutsOn(b, key, names), PutsOn(a, key, names))
    ensures CurrentPayload(GetCurrent(Extended(log, b), key))
         == Some(Arrive(BasePayload(log, key, base), CurrentPayload(GetCurrent(log, key)).value, PutsOn(b, key, names)))
  {
    ReorderedPuts(b, a, key, names);
    ReorderedContest(b, a, key, base, names);
    LogHoldsContested(log, b, key, base, names);
  }

  // What the log holds of a record under a field.
  function Held(log: Log, key: RecordKey, field: string): Option<Json> {
    var current := CurrentPayload(GetCurrent(log, key));
    if current.Some? then current.value.Get(field) else None
  }

  // On a live current version that is not the base: every order of acceptance leaves the greatest
  // number of the puts under the leading field exactly when that version holds none greater
  // there or, if it holds no number, the base does not hold that very number.
  lemma StaleGreatestSurvivesIff(log: Log, a: seq<Accepted>, key: RecordKey, base: Option<string>, names: seq<string>, top: real)
    requires Contest(a, key, base, names) && !FoundFresh(log, key, base)
    requires names != [] && IsTop(top, PutsOn(a, key, names), names[0])
    ensures var current := CurrentPayload(GetCurrent(log, key)).value;
      (forall b :: multiset(b) == multiset(a) ==> Held(Extended(log, b), key, names[0]) == Some(Num(top)))
      <==> if HasNumber(current, names[0]) then Lead(current, names[0]) <= top
           else BaseOf(BasePayload(log, key, base)).Get(names[0]) != Some(Num(top))
  {
    var ancestor, current, puts := BasePayload(log, key, base), CurrentPayload(GetCurrent(log, key)).value, PutsOn(a, key, names);
    GreatestNumberSurvivesIff(ancestor, current, puts, names, top);
    if order :| Reorders(order, puts) && Arrive(ancestor, current, order).Get(names[0]) != Some(Num(top)) {
      var b := OrderOfAcceptance(a, order, key, names);
      AcceptanceIsArrival(log, b, a, key, base, names);
    } else {
      forall b | multiset(b) == multiset(a) ensures Held(Extended(log, b), key, names[0]) == Some(Num(top)) {
        AcceptanceIsArrival(log, b, a, key, base, names);
      }
    }
  }

  ghost predicate AcceptancesAgree(log: Log, a: seq<Accepted>, key: RecordKey) {
    forall b, c :: multiset(b) == multiset(a) && multiset(c) == multiset(a) ==>
      forall field :: Held(Extended(log, b), key, field) == Held(Extended(log, c), key, field)
  }

  // On such a version, with a put greater than the others: every order of acceptance leaves the
  // same values exactly when there are no others, or the version holds a number under the
  // leading field, or the greatest put changed that field and every key is settled.
  lemma StaleValuesAgreeIff(log: Log, a: seq<Accepted>, key: RecordKey, base: Option<string>, names: seq<string>, top: JsonObject, others: seq<JsonObject>)
    requires Contest(a, key, base, names) && !FoundFresh(log, key, base)
    requires Contenders(others, names) && Contender(top, names) && Below(others, top, names[0])
    requires Reorders(PutsOn(a, key, names), others + [top])
    ensures var current, ancestor := CurrentPayload(GetCurrent(log, key)).value, BaseOf(BasePayload(log, key, base));
      AcceptancesAgree(log, a, key)
      <==> others == [] || HasNumber(current, names[0])
           || (Changes(ancestor, top, names[0]) && AllSettled(ancestor, current, top, others, names[0]))
  {
    var current := CurrentPayload(GetCurrent(log, key)).value;
    ValuesAgreeIff(BasePayload(log, key, base), current, top, others, names);
    AgreementLifts(log, a, key, base, names, others + [top]);
  }

  lemma AgreementLifts(log: Log, a: seq<Accepted>, key: RecordKey, base: Option<string>, names: seq<string>, puts: seq<JsonObject>)
    requires Contest(a, key, base, names) && !FoundFresh(log, key, base) && Reorders(PutsOn(a, key, names), puts)
    ensures AcceptancesAgree(log, a, key) <==> AllAgree(BasePayload(log, key, base), CurrentPayload(GetCurrent(log, key)).value, puts)
  {
    var ancestor, current := BasePayload(log, key, base), CurrentPayload(GetCurrent(log, key)).value;
    if AllAgree(ancestor, current, puts) {
      forall b, c, field | multiset(b) == multiset(a) && multiset(c) == multiset(a)
        ensures Held(Extended(log, b), key, field) == Held(Extended(log, c), key, field)
      {
        AcceptanceIsArrival(log, b, a, key, base, names);
        AcceptanceIsArrival(log, c, a, key, base, names);
        assert Arrive(ancestor, current, PutsOn(b, key, names)).values == Arrive(ancestor, current, PutsOn(c, key, names)).values;
      }
    } else {
      var x, y :| Reorders(x, puts) && Reorders(y, puts) && Arrive(ancestor, current, x).values != Arrive(ancestor, current, y).values;
      var b := OrderOfAcceptance(a, x, key, names);
      var c := OrderOfAcceptance(a, y, key, names);
      AcceptanceIsArrival(log, b, a, key, base, names);
      AcceptanceIsArrival(log, c, a, key, base, names);
      if forall field :: Held(Extended(log, b), key, field) == Held(Extended(log, c), key, field) {
        forall field ensures Arrive(ancestor, current, x).Get(field) == Arrive(ancestor, current, y).Get(field) {
          assert Held(Extended(log, b), key, field) == Held(Extended(log, c), key, field);
        }
        SameByKey(Arrive(ancestor, current, x), Arrive(ancestor, current, y));
      }
    }
  }
}
