// What an order of several fields adds: puts that change every ordered field converge on any
// payload, and puts that leave some of them can mix.
module OrderedFields {
  import opened Base
  import opened Json
  import opened Merge
  import opened ConflictOrders
  import opened UnrankedContest

  // The put has none of the ancestor's values under the ordered fields.
  ghost predicate ChangesAll(base: JsonObject, put: JsonObject, names: seq<string>) {
    forall i :: 0 <= i < |names| ==> Changes(base, put, names[i])
  }

  ghost predicate AllChange(base: JsonObject, puts: seq<JsonObject>, names: seq<string>) {
    forall p :: p in puts ==> ChangesAll(base, p, names)
  }

  // The payload holds a greater number under the first ordered field on which they differ, and
  // numbers under all before it.
  predicate Loses(current: JsonObject, put: JsonObject, names: seq<string>) {
    names != [] && HasNumber(current, names[0])
    && (Lead(put, names[0]) < Lead(current, names[0])
        || (Lead(put, names[0]) == Lead(current, names[0]) && Loses(current, put, names[1..])))
  }

  lemma {:induction false} LosingIsScanned(current: JsonObject, put: JsonObject, names: seq<string>)
    requires Ranked(put, names)
    ensures Loses(current, put, names) <==> ScanOrder(Names(names), current, put) == Some(current)
    ensures Loses(current, put, names) ==> current != put
  {
    if names != [] {
      assert Names(names)[1..] == Names(names[1..]) && HasNumber(put, names[0]);
      LosingIsScanned(current, put, names[1..]);
    }
  }

  // A put that changes every ordered field either loses to what is stored or leaves its rank.
  lemma StepLeavesRank(ancestor: Option<JsonObject>, stored: JsonObject, put: JsonObject, names: seq<string>)
    requires Contender(put, names) && ChangesAll(BaseOf(ancestor), put, names)
    ensures var r := ThreeWayMerge(ancestor, Some(stored), Some(put)).value;
      if Loses(stored, put, names) then r == stored else Ranked(r, names) && Rank(r, names) == Rank(put, names)
  {
    LosingIsScanned(stored, put, names);
    ScanChoosesOne(Names(names), stored, put);
    forall i | 0 <= i < |names| ensures Merged(BaseOf(ancestor), stored, put).Get(names[i]) == put.Get(names[i]) {
      MergedKey(BaseOf(ancestor), stored, put, names[i]);
    }
  }

  // A put that loses to the payload is below one that does not.
  lemma {:induction false} LoserIsBelow(current: JsonObject, loser: JsonObject, put: JsonObject, names: seq<string>)
    requires Ranked(loser, names) && Ranked(put, names) && Loses(current, loser, names) && !Loses(current, put, names)
    ensures Compare(Rank(loser, names), Rank(put, names)) <= 0
  {
    assert Rank(loser, names)[1..] == Rank(loser, names[1..]) && Rank(put, names)[1..] == Rank(put, names[1..]);
    assert Rank(loser, names)[0] == Lead(loser, names[0]) && Rank(put, names)[0] == Lead(put, names[0]);
    if Lead(loser, names[0]) == Lead(current, names[0]) == Lead(put, names[0]) {
      LoserIsBelow(current, loser, put, names[1..]);
    }
  }

  ghost predicate AllLose(current: JsonObject, puts: seq<JsonObject>, names: seq<string>) {
    forall p :: p in puts ==> Loses(current, p, names)
  }

  // The first put that does not lose leaves the greatest rank so far.
  lemma FirstToWin(current: JsonObject, losers: seq<JsonObject>, put: JsonObject, result: JsonObject, names: seq<string>)
    requires AllLose(current, losers, names) && !Loses(current, put, names)
    requires Ranked(put, names) && forall p :: p in losers ==> Ranked(p, names)
    requires Ranked(result, names) && Rank(result, names) == Rank(put, names)
    ensures Greatest(result, Elements(losers) + {put}, names)
  {
    forall p | p in Elements(losers) + {put} ensures Compare(Rank(p, names), Rank(result, names)) <= 0 {
      if p == put {
        CompareZero(Rank(put, names), Rank(put, names));
      } else {
        LoserIsBelow(current, p, put, names);
      }
    }
    assert put in Elements(losers) + {put};
  }

  // The payload itself if every put loses to it, and otherwise the greatest rank among them.
  ghost predicate Settles(result: JsonObject, current: JsonObject, puts: seq<JsonObject>, names: seq<string>) {
    if AllLose(current, puts, names) then result == current else Greatest(result, Elements(puts), names)
  }

  lemma SettlesOneMore(ancestor: Option<JsonObject>, current: JsonObject, puts: seq<JsonObject>, put: JsonObject, names: seq<string>)
    requires Contender(put, names) && ChangesAll(BaseOf(ancestor), put, names) && forall p :: p in puts ==> Contender(p, names)
    requires Settles(Arrive(ancestor, current, puts), current, puts, names)
    ensures Settles(Arrive(ancestor, current, puts + [put]), current, puts + [put], names)
  {
    var before, after := Arrive(ancestor, current, puts), Arrive(ancestor, current, puts + [put]);
    ArriveOneMore(ancestor, current, puts, put);
    assert Elements(puts + [put]) == Elements(puts) + {put};
    assert AllLose(current, puts + [put], names) <==> AllLose(current, puts, names) && Loses(current, put, names) by {
      assert put in puts + [put] && forall p :: p in puts ==> p in puts + [put];
    }
    if !AllLose(current, puts, names) {
      MergeKeepsGreater(ancestor, before, put, names);
      OneMoreContestant(before, Elements(puts), put, after, names);
    } else {
      StepLeavesRank(ancestor, current, put, names);
      if !Loses(current, put, names) {
        FirstToWin(current, puts, put, after, names);
      }
    }
  }

  lemma LastAndBefore(base: JsonObject, puts: seq<JsonObject>, names: seq<string>)
    requires puts != [] && AllChange(base, puts, names) && forall p :: p in puts ==> Contender(p, names)
    ensures var n := |puts| - 1;
      && AllChange(base, puts[..n], names) && ChangesAll(base, puts[n], names)
      && Contender(puts[n], names) && forall p :: p in puts[..n] ==> Contender(p, names)
  {
    assert puts[|puts| - 1] in puts && forall p :: p in puts[..|puts| - 1] ==> p in puts;
  }

  // Whatever numbers the payload lacked.
  lemma {:induction false} ChangedOutcome(ancestor: Option<JsonObject>, current: JsonObject, puts: seq<JsonObject>, names: seq<string>)
    requires forall p :: p in puts ==> Contender(p, names)
    requires AllChange(BaseOf(ancestor), puts, names)
    ensures Settles(Arrive(ancestor, current, puts), current, puts, names)
  {
    if puts != [] {
      var n := |puts| - 1;
      LastAndBefore(BaseOf(ancestor), puts, names);
      ChangedOutcome(ancestor, current, puts[..n], names);
      SettlesOneMore(ancestor, current, puts[..n], puts[n], names);
      assert puts[..n] + [puts[n]] == puts;
    }
  }

  // Puts that change every ordered field, as all do where no ancestor is known (below): whatever
  // the current payload, every arrival order leaves it as it is, if all of them lose to it, or
  // ends with the greatest rank among them.
  lemma ChangedFieldsConverge(ancestor: Option<JsonObject>, current: JsonObject, a: seq<JsonObject>, b: seq<JsonObject>, names: seq<string>)
    requires Reorders(a, b) && AllChange(BaseOf(ancestor), a, names)
    requires forall p :: p in a ==> Contender(p, names)
    ensures var x, y := Arrive(ancestor, current, a), Arrive(ancestor, current, b);
      if AllLose(current, a, names) then x == current && y == current
      else Greatest(x, Elements(a), names) && Ranked(y, names) && Rank(x, names) == Rank(y, names)
  {
    SameElements(a, b);
    assert forall p :: p in b <==> p in Elements(b);
    assert forall p :: p in a <==> p in Elements(a);
    ChangedOutcome(ancestor, current, a, names);
    ChangedOutcome(ancestor, current, b, names);
    if !AllLose(current, a, names) {
      GreatestRankUnique(Arrive(ancestor, current, a), Arrive(ancestor, current, b), Elements(a), names);
    }
  }

  lemma UnknownAncestorConverges(current: JsonObject, a: seq<JsonObject>, b: seq<JsonObject>, names: seq<string>)
    requires Reorders(a, b) && forall p :: p in a ==> Contender(p, names)
    ensures var x, y := Arrive(None, current, a), Arrive(None, current, b);
      if AllLose(current, a, names) then x == current && y == current
      else Greatest(x, Elements(a), names) && Ranked(y, names) && Rank(x, names) == Rank(y, names)
  {
    forall p, i | p in a && 0 <= i < |names| ensures Changes(BaseOf(None), p, names[i]) {
      assert HasNumber(p, names[i]);
    }
    ChangedFieldsConverge(None, current, a, b, names);
  }

  function FieldsFG(x: real, y: real): JsonObject
  {
    assert |"f"| == 1 && "f"[0] != "g"[0];
    TwoFields("f", Num(x), "g", Num(y))
  }

  // A put of two numbers that declares the order f, g.
  function PutOfFG(x: real, y: real): JsonObject { Declaring(FieldsFG(x, y), ["f", "g"]) }

  lemma PutOfFGContends(x: real, y: real)
    ensures Contender(PutOfFG(x, y), ["f", "g"]) && PutOfFG(x, y).Get("f") == Some(Num(x)) && PutOfFG(x, y).Get("g") == Some(Num(y))
    ensures FieldsFG(x, y).Get("f") == Some(Num(x)) && FieldsFG(x, y).Get("g") == Some(Num(y))
  {
    var f, g := "f", "g";
    assert |SYNC| == 5 && |f| == 1 && |g| == 1 && f[0] != g[0];
    DeclaringContends(FieldsFG(x, y), [f, g]);
    assert PutOfFG(x, y).Get(f) == FieldsFG(x, y).Get(f) && PutOfFG(x, y).Get(g) == FieldsFG(x, y).Get(g);
  }

  // The ancestor holds 0 under f and g and the current payload neither. One put raises g to 9,
  // the other f to 5. In one order the two numbers mix into a rank that no put had; in the other
  // g is lost. Under f alone both orders agree.
  lemma {:induction false} SeveralFieldsCanMix()
    ensures Contender(PutOfFG(0.0, 9.0), ["f", "g"]) && Contender(PutOfFG(5.0, 0.0), ["f", "g"])
    ensures var mixed := Arrive(Some(FieldsFG(0.0, 0.0)), EMPTY, [PutOfFG(0.0, 9.0), PutOfFG(5.0, 0.0)]);
      mixed.Get("f") == Some(Num(5.0)) && mixed.Get("g") == Some(Num(9.0))
    ensures var lost := Arrive(Some(FieldsFG(0.0, 0.0)), EMPTY, [PutOfFG(5.0, 0.0), PutOfFG(0.0, 9.0)]);
      lost.Get("f") == Some(Num(5.0)) && lost.Get("g") == None
  {
    var names := ["f", "g"];
    assert names[0] != names[1] by {
      assert |"f"| == 1 && "f"[0] != "g"[0];
    }
    PutOfFGContends(0.0, 9.0);
    PutOfFGContends(5.0, 0.0);
    PutOfFGContends(0.0, 0.0);
    MixingOrder(FieldsFG(0.0, 0.0), PutOfFG(0.0, 9.0), PutOfFG(5.0, 0.0), names);
    LosingOrder(FieldsFG(0.0, 0.0), PutOfFG(0.0, 9.0), PutOfFG(5.0, 0.0), names);
  }

  lemma {:induction false} MixingOrder(ancestor: JsonObject, p: JsonObject, q: JsonObject, names: seq<string>)
    requires |names| == 2 && names[0] != names[1] && Contender(p, names) && Contender(q, names)
    requires ancestor.Get(names[0]) == p.Get(names[0]) && ancestor.Get(names[1]) == q.Get(names[1])
    requires ancestor.Get(names[1]) != p.Get(names[1]) && ancestor.Get(names[0]) != q.Get(names[0])
    ensures var x := Arrive(Some(ancestor), EMPTY, [p, q]);
      x.Get(names[0]) == q.Get(names[0]) && x.Get(names[1]) == p.Get(names[1])
  {
    ArriveTwo(Some(ancestor), EMPTY, p, q);
    LeadStep(Some(ancestor), EMPTY, p, names);
    var s := Merged(ancestor, EMPTY, p);
    MergedKey(ancestor, EMPTY, p, names[0]);
    MergedKey(ancestor, EMPTY, p, names[1]);
    LeadStep(Some(ancestor), s, q, names);
    MergedKey(ancestor, s, q, names[0]);
    MergedKey(ancestor, s, q, names[1]);
  }

  lemma {:induction false} LosingOrder(ancestor: JsonObject, p: JsonObject, q: JsonObject, names: seq<string>)
    requires |names| == 2 && names[0] != names[1] && Contender(p, names) && Contender(q, names)
    requires ancestor.Get(names[1]) == q.Get(names[1]) && ancestor.Get(names[0]) != q.Get(names[0])
    requires Lead(p, names[0]) < Lead(q, names[0])
    ensures var y := Arrive(Some(ancestor), EMPTY, [q, p]);
      y.Get(names[0]) == q.Get(names[0]) && y.Get(names[1]) == None
  {
    ArriveTwo(Some(ancestor), EMPTY, q, p);
    LeadStep(Some(ancestor), EMPTY, q, names);
    var s := Merged(ancestor, EMPTY, q);
    MergedKey(ancestor, EMPTY, q, names[0]);
    MergedKey(ancestor, EMPTY, q, names[1]);
    assert HasNumber(q, names[0]);
    LeadStep(Some(ancestor), s, p, names);
  }
}
