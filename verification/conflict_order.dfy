// The client-declared conflict order: which of several concurrent puts wins does
// not depend on the order in which they arrive.
module ConflictOrders {
  import opened Base
  import opened Json
  import opened Merge

  predicate HasNumber(payload: RawObject, name: string) {
    payload.Get(name).Some? && payload.Get(name).value.Num?
  }

  predicate Ranked(payload: RawObject, names: seq<string>) {
    forall i :: 0 <= i < |names| ==> HasNumber(payload, names[i])
  }

  // The numbers a payload holds under the ordered fields.
  function Rank(payload: RawObject, names: seq<string>): (rank: seq<real>)
    ensures |rank| == |names|
  {
    seq(|names|, i requires 0 <= i < |names| => if HasNumber(payload, names[i]) then payload.Get(names[i]).value.num else 0.0)
  }

  // Lexicographic comparison: negative, zero or positive.
  function Compare(a: seq<real>, b: seq<real>): int
    requires |a| == |b|
  {
    if a == [] then 0
    else if a[0] < b[0] then -1
    else if a[0] > b[0] then 1
    else Compare(a[1..], b[1..])
  }

  lemma {:induction false} CompareZero(a: seq<real>, b: seq<real>)
    requires |a| == |b|
    ensures Compare(a, b) == 0 <==> a == b
    ensures Compare(a, b) == -Compare(b, a)
  {
    if a != [] {
      CompareZero(a[1..], b[1..]);
      assert a == [a[0]] + a[1..] && b == [b[0]] + b[1..];
    }
  }

  lemma {:induction false} CompareTransitive(a: seq<real>, b: seq<real>, c: seq<real>)
    requires |a| == |b| == |c|
    requires Compare(a, b) <= 0 && Compare(b, c) <= 0
    ensures Compare(a, c) <= 0
  {
    if a != [] && a[0] == b[0] == c[0] {
      CompareTransitive(a[1..], b[1..], c[1..]);
    }
  }

  function Names(names: seq<string>): seq<Json> { seq(|names|, i requires 0 <= i < |names| => Str(names[i])) }

  // The scan over the order's fields is the lexicographic comparison.
  lemma {:induction false} ScanIsLexicographic(names: seq<string>, server: JsonObject, client: JsonObject)
    requires Ranked(server, names) && Ranked(client, names)
    ensures var c := Compare(Rank(client, names), Rank(server, names));
      ScanOrder(Names(names), server, client) == if c > 0 then Some(client) else if c < 0 then Some(server) else None
  {
    if names != [] {
      assert Names(names)[1..] == Names(names[1..]);
      assert Rank(client, names)[1..] == Rank(client, names[1..]);
      assert Rank(server, names)[1..] == Rank(server, names[1..]);
      ScanIsLexicographic(names[1..], server, client);
    }
  }

  // A put that declares this order and holds a number under each of its fields.
  predicate Contender(payload: RawObject, names: seq<string>) {
    ConflictOrder(payload) == Some(Names(names)) && Ranked(payload, names)
  }

  // A contested put leaves the greater rank, and the greater payload whole unless the ranks tie.
  lemma MergeKeepsGreater(ancestor: Option<JsonObject>, server: JsonObject, client: JsonObject, names: seq<string>)
    requires Ranked(server, names) && Contender(client, names)
    ensures var result, c := ThreeWayMerge(ancestor, Some(server), Some(client)).value, Compare(Rank(client, names), Rank(server, names));
      && Ranked(result, names)
      && Rank(result, names) == (if c > 0 then Rank(client, names) else Rank(server, names))
      && (c > 0 ==> result == client)
      && (c < 0 ==> result == server)
  {
    ScanIsLexicographic(names, server, client);
    if Compare(Rank(client, names), Rank(server, names)) == 0 {
      CompareZero(Rank(client, names), Rank(server, names));
      var base: JsonObject := if ancestor.Some? then ancestor.value else EMPTY;
      var result := Merged(base, server, client);
      forall i | 0 <= i < |names| ensures result.Get(names[i]) == server.Get(names[i]) {
        MergeByKey(base, server, client, names[i]);
        assert Rank(client, names)[i] == Rank(server, names)[i];
      }
    }
  }

  // The payload after the puts arrive one after another, each contesting what is stored.
  function Arrive(ancestor: Option<JsonObject>, current: JsonObject, puts: seq<JsonObject>): JsonObject {
    if puts == [] then current else
      var n := |puts| - 1;
      ThreeWayMerge(ancestor, Some(Arrive(ancestor, current, puts[..n])), Some(puts[n])).value
  }

  lemma ArriveOneMore(ancestor: Option<JsonObject>, current: JsonObject, puts: seq<JsonObject>, put: JsonObject)
    ensures Some(Arrive(ancestor, current, puts + [put])) == ThreeWayMerge(ancestor, Some(Arrive(ancestor, current, puts)), Some(put))
  {
    assert (puts + [put])[..|puts|] == puts;
  }

  // Different payloads have different ranks.
  ghost predicate DistinctRanks(payloads: set<JsonObject>, names: seq<string>) {
    forall p, q :: p in payloads && q in payloads && Rank(p, names) == Rank(q, names) ==> p == q
  }

  // No payload of the set outranks this one, and one of them has its rank.
  ghost predicate Greatest(payload: JsonObject, payloads: set<JsonObject>, names: seq<string>) {
    && Ranked(payload, names)
    && (forall p :: p in payloads ==> Compare(Rank(p, names), Rank(payload, names)) <= 0)
    && (exists p :: p in payloads && Rank(p, names) == Rank(payload, names))
  }

  lemma GreatestRankUnique(x: JsonObject, y: JsonObject, payloads: set<JsonObject>, names: seq<string>)
    requires Greatest(x, payloads, names) && Greatest(y, payloads, names)
    ensures Rank(x, names) == Rank(y, names)
  {
    CompareZero(Rank(x, names), Rank(y, names));
  }

  // A contest with one more put keeps the greatest rank.
  lemma OneMoreContestant(x: JsonObject, payloads: set<JsonObject>, put: JsonObject, result: JsonObject, names: seq<string>)
    requires Greatest(x, payloads, names) && Ranked(result, names)
    requires Rank(result, names) == if Compare(Rank(put, names), Rank(x, names)) > 0 then Rank(put, names) else Rank(x, names)
    ensures Greatest(result, payloads + {put}, names)
  {
    var r := Rank(result, names);
    CompareZero(Rank(put, names), Rank(x, names));
    CompareZero(r, r);
    assert Compare(Rank(x, names), r) <= 0;
    forall p | p in payloads ensures Compare(Rank(p, names), r) <= 0 {
      CompareTransitive(Rank(p, names), Rank(x, names), r);
    }
    if Compare(Rank(put, names), Rank(x, names)) > 0 {
      assert put in payloads + {put} && Rank(put, names) == r;
    } else {
      var p :| p in payloads && Rank(p, names) == Rank(x, names);
      assert p in payloads + {put} && Rank(p, names) == r;
    }
  }

  function Elements(puts: seq<JsonObject>): set<JsonObject> { set p | p in puts }

  // The final rank is the greatest among the puts and the payload they found; with
  // pairwise distinct ranks the final payload is the one that has it.
  lemma {:induction false} ArrivalGreatest(ancestor: Option<JsonObject>, current: JsonObject, puts: seq<JsonObject>, names: seq<string>)
    requires Ranked(current, names) && forall p :: p in puts ==> Contender(p, names)
    ensures Greatest(Arrive(ancestor, current, puts), Elements(puts) + {current}, names)
    ensures DistinctRanks(Elements(puts) + {current}, names) ==> Arrive(ancestor, current, puts) in Elements(puts) + {current}
  {
    if puts == [] {
      CompareZero(Rank(current, names), Rank(current, names));
      assert current in Elements(puts) + {current};
    } else {
      var n := |puts| - 1;
      var before, last := Arrive(ancestor, current, puts[..n]), puts[n];
      assert Elements(puts) == Elements(puts[..n]) + {last};
      ArrivalGreatest(ancestor, current, puts[..n], names);
      MergeKeepsGreater(ancestor, before, last, names);
      OneMoreContestant(before, Elements(puts[..n]) + {current}, last, Arrive(ancestor, current, puts), names);
      assert Elements(puts) + {current} == Elements(puts[..n]) + {current} + {last};
      if DistinctRanks(Elements(puts) + {current}, names) {
        CompareZero(Rank(last, names), Rank(before, names));
        assert before in Elements(puts) + {current};
        EqualPutChangesNothing(ancestor, last);
      }
    }
  }

  // A put equal to the stored payload stores that payload again.
  lemma EqualPutChangesNothing(ancestor: Option<JsonObject>, payload: JsonObject)
    ensures ThreeWayMerge(ancestor, Some(payload), Some(payload)) == Some(payload)
  {
    SettledMerge(if ancestor.Some? then ancestor.value else EMPTY, payload, payload);
    var order := ConflictOrder(payload);
    if order.Some? {
      ScanAgainstItself(order.value, payload);
    }
  }

  lemma SameElements(a: seq<JsonObject>, b: seq<JsonObject>)
    requires multiset(a) == multiset(b)
    ensures Elements(a) == Elements(b) && |a| == |b|
  {
    assert |multiset(a)| == |a| && |multiset(b)| == |b|;
    forall p ensures p in a <==> p in b {
      assert p in multiset(a) <==> p in multiset(b);
    }
  }

  // Puts on a base that is already stale: every arrival order ends with the same rank, the
  // greatest among them and the current payload, and with the same payload when the ranks
  // are pairwise distinct.
  lemma {:induction false} StaleArrivalOrderIrrelevant(ancestor: Option<JsonObject>, current: JsonObject, a: seq<JsonObject>, b: seq<JsonObject>, names: seq<string>)
    requires multiset(a) == multiset(b)
    requires Ranked(current, names) && forall p :: p in a ==> Contender(p, names)
    ensures var x, y := Arrive(ancestor, current, a), Arrive(ancestor, current, b);
      && Greatest(x, Elements(a) + {current}, names)
      && Rank(x, names) == Rank(y, names)
      && (DistinctRanks(Elements(a) + {current}, names) ==> x == y)
  {
    SameElements(a, b);
    assert forall p :: p in b ==> p in Elements(a);
    ArrivalGreatest(ancestor, current, a, names);
    ArrivalGreatest(ancestor, current, b, names);
    GreatestRankUnique(Arrive(ancestor, current, a), Arrive(ancestor, current, b), Elements(a) + {current}, names);
  }

  // Puts on the current base: the first is stored as it is, the others contest it.
  function ArriveFresh(ancestor: Option<JsonObject>, puts: seq<JsonObject>): JsonObject
    requires puts != []
  {
    Arrive(ancestor, puts[0], puts[1..])
  }

  lemma FreshArrivalGreatest(ancestor: Option<JsonObject>, puts: seq<JsonObject>, names: seq<string>)
    requires puts != [] && forall p :: p in puts ==> Contender(p, names)
    ensures Greatest(ArriveFresh(ancestor, puts), Elements(puts), names)
    ensures DistinctRanks(Elements(puts), names) ==> ArriveFresh(ancestor, puts) in Elements(puts)
  {
    assert Elements(puts[1..]) + {puts[0]} == Elements(puts);
    ArrivalGreatest(ancestor, puts[0], puts[1..], names);
  }

  lemma FreshArrivalOrderIrrelevant(ancestor: Option<JsonObject>, a: seq<JsonObject>, b: seq<JsonObject>, names: seq<string>)
    requires multiset(a) == multiset(b) && a != []
    requires forall p :: p in a ==> Contender(p, names)
    ensures b != []
    ensures var x, y := ArriveFresh(ancestor, a), ArriveFresh(ancestor, b);
      && Greatest(x, Elements(a), names)
      && Rank(x, names) == Rank(y, names)
      && (DistinctRanks(Elements(a), names) ==> x == y)
  {
    SameElements(a, b);
    assert forall p :: p in b ==> p in Elements(a);
    FreshArrivalGreatest(ancestor, a, names);
    FreshArrivalGreatest(ancestor, b, names);
    GreatestRankUnique(ArriveFresh(ancestor, a), ArriveFresh(ancestor, b), Elements(a), names);
  }
}
