// The server's default three-way merge of JSON objects.
module Merge {
  import opened Base
  import opened Json

  const MAX_ORDER_FIELDS := 8

  // ----- the client-declared conflict order -----

  // The client's `_sync.conflictOrder`, when it is an array of 1 to 8 items.
  function ConflictOrder(client: RawObject): Option<seq<Json>> {
    match client.Get("_sync")
    case Some(Obj(directive)) => (
      match directive.Get("conflictOrder")
      case Some(Arr(order)) => if 1 <= |order| <= MAX_ORDER_FIELDS then Some(order) else None
      case _ => None)
    case _ => None
  }

  // Scans the order and stops at the first field that decides, or at the first that cannot.
  function ScanOrder(order: seq<Json>, server: JsonObject, client: JsonObject): Option<JsonObject> {
    if order == [] || !order[0].Str? then None else
      match (server.Get(order[0].str), client.Get(order[0].str))
      case (Some(Num(s)), Some(Num(c))) =>
        if c > s then Some(client)
        else if c < s then Some(server)
        else ScanOrder(order[1..], server, client)
      case _ => None
  }

  function PreferredPayload(server: JsonObject, client: JsonObject): Option<JsonObject> {
    match ConflictOrder(client)
    case None => None
    case Some(order) => ScanOrder(order, server, client)
  }

  // ----- the merge of the remaining keys, stated key by key -----

  type Fields = map<string, Json>

  function At(fields: Fields, key: string): Option<Json> {
    if key in fields then Some(fields[key]) else None
  }

  // The client holds this key with a value that differs from the ancestor's.
  predicate Changed(ancestor: Fields, client: Fields, key: string) {
    key in client && !(key in ancestor && ancestor[key] == client[key])
  }

  // The server's fields, except that the considered keys the client changed take the client's value.
  function MergedFields(ancestor: Fields, server: Fields, client: Fields, considered: set<string>): Fields {
    server + map k | k in client && k in considered && Changed(ancestor, client, k) :: client[k]
  }

  // The keys among `considered` that the client changed and the server lacks, in their order.
  function AddedKeys(ancestor: Fields, server: Fields, client: Fields, considered: seq<string>): (added: seq<string>)
    ensures forall k :: k in added <==> k in considered && k !in server && Changed(ancestor, client, k)
  {
    if considered == [] then [] else
      var n := |considered| - 1;
      var added := AddedKeys(ancestor, server, client, considered[..n]);
      assert forall k :: k in considered <==> k in considered[..n] || k == considered[n];
      if considered[n] !in server && Changed(ancestor, client, considered[n]) then added + [considered[n]] else added
  }

  lemma {:induction false} AddedKeysListed(ancestor: Fields, server: Fields, client: Fields, considered: seq<string>, members: set<string>)
    requires Lists(considered, members)
    ensures Lists(AddedKeys(ancestor, server, client, considered), set k | k in members && k !in server && Changed(ancestor, client, k))
  {
    if considered != [] {
      var n := |considered| - 1;
      var last := considered[n];
      AddedKeysListed(ancestor, server, client, considered[..n], members - {last});
      var before := set k | k in members - {last} && k !in server && Changed(ancestor, client, k);
      var after := set k | k in members && k !in server && Changed(ancestor, client, k);
      if last !in server && Changed(ancestor, client, last) {
        assert after - {last} == before;
        var added := AddedKeys(ancestor, server, client, considered);
        assert added[..|added| - 1] == AddedKeys(ancestor, server, client, considered[..n]);
      } else {
        assert after == before;
      }
    }
  }

  function Merged(ancestor: JsonObject, server: JsonObject, client: JsonObject): (merged: JsonObject) {
    var added := AddedKeys(ancestor.values, server.values, client.values, client.keys);
    var values := MergedFields(ancestor.values, server.values, client.values, client.values.Keys);
    MergedIsListed(ancestor.values, server, client);
    Object(server.keys + added, values)
  }

  lemma MergedIsListed(ancestor: Fields, server: JsonObject, client: JsonObject)
    ensures Lists(server.keys + AddedKeys(ancestor, server.values, client.values, client.keys),
                  MergedFields(ancestor, server.values, client.values, client.values.Keys).Keys)
  {
    var added := set k | k in client.values.Keys && k !in server.values && Changed(ancestor, client.values, k);
    AddedKeysListed(ancestor, server.values, client.values, client.keys, client.values.Keys);
    ListsConcat(server.keys, AddedKeys(ancestor, server.values, client.values, client.keys), server.values.Keys, added);
    assert server.values.Keys + added == MergedFields(ancestor, server.values, client.values, client.values.Keys).Keys;
  }

  // What the server stores for a conflicting mutation; None is a deletion.
  function ThreeWayMerge(ancestor: Option<JsonObject>, server: Option<JsonObject>, client: Option<JsonObject>): (merged: Option<JsonObject>)
    ensures client.Some? ==> merged.Some?
  {
    if client.None? then None
    else if server.None? then client
    else match PreferredPayload(server.value, client.value)
      case Some(preferred) => Some(preferred)
      case None => Some(Merged(if ancestor.Some? then ancestor.value else EMPTY, server.value, client.value))
  }

  // One pass of the loop: the condition as the source writes it, on possibly undefined values.
  function Pass(ancestor: Fields, original: Fields, client: Fields, merged: RawObject, key: string): RawObject
    requires key in client
  {
    var clientValue, ancestorValue, serverValue := At(client, key), At(ancestor, key), At(original, key);
    var clientChanged, serverChanged := clientValue != ancestorValue, serverValue != ancestorValue;
    if clientChanged && (!serverChanged || clientValue != serverValue) then merged.Put(key, clientValue.value) else merged
  }

  // Considering one more key assigns it when the client changed it, and nothing else.
  lemma OneMoreValue(ancestor: Fields, server: Fields, client: Fields, done: set<string>, key: string)
    requires key in client && key !in done
    ensures var before := MergedFields(ancestor, server, client, done);
      && At(before, key) == At(server, key)
      && MergedFields(ancestor, server, client, done + {key})
      == if Changed(ancestor, client, key) then before[key := client[key]] else before
  {
  }

  lemma OneMoreKey(ancestor: Fields, server: Fields, client: Fields, done: seq<string>, key: string)
    requires key in client && key !in done
    ensures var before := AddedKeys(ancestor, server, client, done);
      AddedKeys(ancestor, server, client, done + [key])
      == if Changed(ancestor, client, key) && key !in server then before + [key] else before
  {
    assert (done + [key])[..|done|] == done;
  }

  // The object after the loop has considered the client's first i keys.
  function MergedAfter(ancestor: Fields, server: RawObject, client: JsonObject, i: nat): RawObject
    requires i <= |client.keys|
  {
    Object(server.keys + AddedKeys(ancestor, server.values, client.values, client.keys[..i]),
           MergedFields(ancestor, server.values, client.values, FirstKeys(client, i)))
  }

  // The loop's two overlapping conditions together assign exactly the changed keys: where
  // both sides made the same change, the assignment they skip would change nothing.
  lemma PassAssignsChanged(ancestor: Fields, server: Fields, client: Fields, merged: RawObject, key: string)
    requires key in client && At(merged.values, key) == At(server, key)
    ensures Pass(ancestor, server, client, merged, key)
         == if Changed(ancestor, client, key) then merged.Put(key, client[key]) else merged
  {
    if key in server && server[key] == client[key] {
      assert merged.values[key := client[key]] == merged.values;
    }
  }

  // The client's first i keys.
  function FirstKeys(client: JsonObject, i: nat): set<string>
    requires i <= |client.keys|
  {
    set j | 0 <= j < i :: client.keys[j]
  }

  lemma NextKey(client: JsonObject, i: nat)
    requires i < |client.keys|
    ensures var key := client.keys[i];
      && key in client.values && key !in client.keys[..i] && key !in FirstKeys(client, i)
      && FirstKeys(client, i + 1) == FirstKeys(client, i) + {key}
      && client.keys[..i + 1] == client.keys[..i] + [key]
  {
    ListsOnce(client.keys, client.values.Keys, i);
    forall k | k in FirstKeys(client, i) ensures k in client.keys[..i] {
      var j :| 0 <= j < i && client.keys[j] == k;
      assert client.keys[..i][j] == k;
    }
  }

  lemma MergedAfterNext(ancestor: Fields, server: RawObject, client: JsonObject, i: nat)
    requires i < |client.keys|
    ensures client.keys[i] in client.values
    ensures var key, merged := client.keys[i], MergedAfter(ancestor, server, client, i);
      && At(merged.values, key) == At(server.values, key)
      && MergedAfter(ancestor, server, client, i + 1)
      == if Changed(ancestor, client.values, key) then merged.Put(key, client.values[key]) else merged
  {
    var key := client.keys[i];
    NextKey(client, i);
    OneMoreValue(ancestor, server.values, client.values, FirstKeys(client, i), key);
    OneMoreKey(ancestor, server.values, client.values, client.keys[..i], key);
  }

  lemma PassMergesKey(ancestor: Fields, server: RawObject, client: JsonObject, i: nat)
    requires i < |client.keys|
    ensures client.keys[i] in client.values
    ensures Pass(ancestor, server.values, client.values, MergedAfter(ancestor, server, client, i), client.keys[i])
         == MergedAfter(ancestor, server, client, i + 1)
  {
    MergedAfterNext(ancestor, server, client, i);
    PassAssignsChanged(ancestor, server.values, client.values, MergedAfter(ancestor, server, client, i), client.keys[i]);
  }

  lemma MergedAfterAll(ancestor: JsonObject, server: JsonObject, client: JsonObject)
    ensures MergedAfter(ancestor.values, server, client, 0) == server
    ensures MergedAfter(ancestor.values, server, client, |client.keys|) == Merged(ancestor, server, client)
  {
    assert client.keys[..|client.keys|] == client.keys;
    ListsMembers(client.keys, client.values.Keys);
    assert FirstKeys(client, |client.keys|) == client.values.Keys;
  }

  method DefaultThreeWayMerge(ancestor: Option<JsonObject>, server: Option<JsonObject>, client: Option<JsonObject>)
    returns (result: Option<JsonObject>)
    ensures result == ThreeWayMerge(ancestor, server, client)
  {
    if client.None? {
      return None;
    }
    if server.None? {
      return client;
    }
    var preferred := PreferredPayload(server.value, client.value);
    if preferred.Some? {
      return preferred;
    }
    var merged := MergeKeys(if ancestor.Some? then ancestor.value else EMPTY, server.value, client.value);
    return Some(merged);
  }

  // The loop over the client's keys.
  method MergeKeys(ancestor: JsonObject, server: JsonObject, client: JsonObject) returns (merged: RawObject)
    ensures merged == Merged(ancestor, server, client)
  {
    merged := server;
    MergedAfterAll(ancestor, server, client);
    for i := 0 to |client.keys|
      invariant merged == MergedAfter(ancestor.values, server, client, i)
    {
      PassMergesKey(ancestor.values, server, client, i);
      var key := client.keys[i];
      var clientValue := client.Get(key);
      var ancestorValue := ancestor.Get(key);
      var serverValue := server.Get(key);
      var clientChanged := clientValue != ancestorValue;
      var serverChanged := serverValue != ancestorValue;
      if clientChanged && (!serverChanged || clientValue != serverValue) {
        merged := merged.Put(key, clientValue.value);
      }
    }
  }

  // ----- what the merge means -----

  // Every key of the merge: the client's value if the client holds it and changed it from
  // the ancestor, otherwise the server's value or absence.
  lemma MergeByKey(ancestor: JsonObject, server: JsonObject, client: JsonObject, key: string)
    ensures Merged(ancestor, server, client).Get(key)
         == if client.Get(key).Some? && client.Get(key) != ancestor.Get(key) then client.Get(key) else server.Get(key)
  {
  }

  // The order in which the client lists its keys does not change any merged value.
  lemma MergeIgnoresKeyOrder(ancestor: JsonObject, server: JsonObject, client: JsonObject, shuffled: JsonObject)
    requires client.values == shuffled.values
    ensures Merged(ancestor, server, client).values == Merged(ancestor, server, shuffled).values
  {
  }

  // A payload with no usable order directive never short-circuits the merge.
  predicate Orderless(client: RawObject) { ConflictOrder(client).None? }

  // Merging the same orderless client again changes nothing, not even the order of the keys.
  lemma MergeIdempotent(ancestor: Option<JsonObject>, server: Option<JsonObject>, client: Option<JsonObject>)
    requires client.Some? ==> Orderless(client.value)
    ensures var once := ThreeWayMerge(ancestor, server, client);
      ThreeWayMerge(ancestor, once, client) == once
  {
    if client.Some? {
      var base: JsonObject := if ancestor.Some? then ancestor.value else EMPTY;
      SettledMerge(base, ThreeWayMerge(ancestor, server, client).value, client.value);
    }
  }

  // A server that already holds every changed value is left as it is.
  lemma SettledMerge(ancestor: JsonObject, server: JsonObject, client: JsonObject)
    requires forall k :: Changed(ancestor.values, client.values, k) ==> server.Get(k) == client.Get(k)
    ensures Merged(ancestor, server, client) == server
  {
    HasMember(AddedKeys(ancestor.values, server.values, client.values, client.keys));
  }

  lemma HasMember<T>(s: seq<T>)
    ensures s == [] || exists x :: x in s
  {
    assert s == [] || s[0] in s;
  }

  // ----- two clients of one ancestor, in either order -----

  function BaseOf(ancestor: Option<JsonObject>): JsonObject { if ancestor.Some? then ancestor.value else EMPTY }

  // What the server holds after merging one client and then the other.
  function MergedTwice(ancestor: Option<JsonObject>, server: JsonObject, first: JsonObject, second: JsonObject): Option<JsonObject> {
    ThreeWayMerge(ancestor, ThreeWayMerge(ancestor, Some(server), Some(first)), Some(second))
  }

  function BothMerged(base: JsonObject, server: JsonObject, first: JsonObject, second: JsonObject): JsonObject {
    Merged(base, Merged(base, server, first), second)
  }

  lemma BothMergedAt(base: JsonObject, server: JsonObject, first: JsonObject, second: JsonObject, key: string)
    ensures BothMerged(base, server, first, second).Get(key)
         == if Changed(base.values, second.values, key) then second.Get(key)
            else if Changed(base.values, first.values, key) then first.Get(key)
            else server.Get(key)
  {
    MergeByKey(base, Merged(base, server, first), second, key);
    MergeByKey(base, server, first, key);
  }

  lemma SameAt(a: Fields, b: Fields)
    requires forall k :: At(a, k) == At(b, k)
    ensures a == b
  {
    forall k ensures k in a <==> k in b
      ensures k in a ==> a[k] == b[k]
    {
      assert At(a, k) == At(b, k);
    }
  }

  // No key was changed by both to different values.
  ghost predicate Agree(base: JsonObject, first: JsonObject, second: JsonObject) {
    forall k :: Changed(base.values, first.values, k) && Changed(base.values, second.values, k) ==> first.values[k] == second.values[k]
  }

  lemma AgreedValues(base: JsonObject, server: JsonObject, first: JsonObject, second: JsonObject)
    requires Agree(base, first, second)
    ensures BothMerged(base, server, first, second).values == BothMerged(base, server, second, first).values
  {
    forall k ensures At(BothMerged(base, server, first, second).values, k) == At(BothMerged(base, server, second, first).values, k) {
      BothMergedAt(base, server, first, second, k);
      BothMergedAt(base, server, second, first, k);
    }
    SameAt(BothMerged(base, server, first, second).values, BothMerged(base, server, second, first).values);
  }

  lemma DisagreedValues(base: JsonObject, first: JsonObject, second: JsonObject)
    requires !Agree(base, first, second)
    ensures BothMerged(base, EMPTY, first, second).values != BothMerged(base, EMPTY, second, first).values
  {
    var k :| Changed(base.values, first.values, k) && Changed(base.values, second.values, k) && first.values[k] != second.values[k];
    BothMergedAt(base, EMPTY, first, second, k);
    BothMergedAt(base, EMPTY, second, first, k);
    assert BothMerged(base, EMPTY, first, second).Get(k) != BothMerged(base, EMPTY, second, first).Get(k);
  }

  lemma OrderlessMergedTwice(ancestor: Option<JsonObject>, server: JsonObject, first: JsonObject, second: JsonObject)
    requires Orderless(first) && Orderless(second)
    ensures MergedTwice(ancestor, server, first, second) == Some(BothMerged(BaseOf(ancestor), server, first, second))
  {
  }

  // Two orderless clients of the same ancestor give the same values in either order of arrival,
  // for every server payload, exactly when no key was changed by both to different values.
  lemma MergeCommutes(ancestor: Option<JsonObject>, first: JsonObject, second: JsonObject)
    requires Orderless(first) && Orderless(second)
    ensures (forall server: JsonObject ::
              MergedTwice(ancestor, server, first, second).value.values == MergedTwice(ancestor, server, second, first).value.values)
       <==> Agree(BaseOf(ancestor), first, second)
  {
    forall server: JsonObject
      ensures MergedTwice(ancestor, server, first, second) == Some(BothMerged(BaseOf(ancestor), server, first, second))
      ensures MergedTwice(ancestor, server, second, first) == Some(BothMerged(BaseOf(ancestor), server, second, first))
      ensures Agree(BaseOf(ancestor), first, second) ==>
        BothMerged(BaseOf(ancestor), server, first, second).values == BothMerged(BaseOf(ancestor), server, second, first).values
    {
      OrderlessMergedTwice(ancestor, server, first, second);
      OrderlessMergedTwice(ancestor, server, second, first);
      if Agree(BaseOf(ancestor), first, second) {
        AgreedValues(BaseOf(ancestor), server, first, second);
      }
    }
    if !Agree(BaseOf(ancestor), first, second) {
      DisagreedValues(BaseOf(ancestor), first, second);
      assert MergedTwice(ancestor, EMPTY, first, second).value.values != MergedTwice(ancestor, EMPTY, second, first).value.values;
    }
  }

  // The keys a client changed, in its order.
  function ChangedKeys(base: JsonObject, client: JsonObject): seq<string> {
    AddedKeys(base.values, map[], client.values, client.keys)
  }

  function Absent(keys: seq<string>, present: Fields): seq<string> {
    if keys == [] then [] else
      var absent := Absent(keys[..|keys| - 1], present);
      if keys[|keys| - 1] in present then absent else absent + [keys[|keys| - 1]]
  }

  lemma {:induction false} AbsentConcat(a: seq<string>, b: seq<string>, present: Fields)
    ensures Absent(a + b, present) == Absent(a, present) + Absent(b, present)
  {
    if b == [] {
      assert a + b == a;
    } else {
      AbsentConcat(a, b[..|b| - 1], present);
      assert (a + b)[..|a + b| - 1] == a + b[..|b| - 1];
    }
  }

  lemma {:induction false} AbsentSame(keys: seq<string>, a: Fields, b: Fields)
    requires forall k :: k in keys ==> (k in a <==> k in b)
    ensures Absent(keys, a) == Absent(keys, b)
  {
    if keys != [] {
      assert keys[|keys| - 1] in keys && forall k :: k in keys[..|keys| - 1] ==> k in keys;
      AbsentSame(keys[..|keys| - 1], a, b);
    }
  }

  lemma {:induction false} AddedAreAbsent(base: Fields, server: Fields, client: Fields, considered: seq<string>)
    ensures AddedKeys(base, server, client, considered) == Absent(AddedKeys(base, map[], client, considered), server)
  {
    if considered != [] {
      var n := |considered| - 1;
      AddedAreAbsent(base, server, client, considered[..n]);
      AbsentConcat(AddedKeys(base, map[], client, considered[..n]), [considered[n]], server);
      assert [considered[n]][..0] == [];
    }
  }

  // A merge keeps the server's keys in place and appends the changed keys the server lacks.
  lemma MergedKeys(base: JsonObject, server: JsonObject, client: JsonObject)
    ensures Merged(base, server, client).keys == server.keys + Absent(ChangedKeys(base, client), server.values)
  {
    AddedAreAbsent(base.values, server.values, client.values, client.keys);
  }

  lemma MergedHas(base: JsonObject, server: JsonObject, client: JsonObject, key: string)
    ensures key in Merged(base, server, client).values <==> key in server.values || key in ChangedKeys(base, client)
  {
    ListsMembers(client.keys, client.values.Keys);
    MergeByKey(base, server, client, key);
  }

  lemma {:induction false} AbsentNone(keys: seq<string>, present: Fields)
    requires forall k :: k in keys ==> k in present
    ensures Absent(keys, present) == []
  {
    if keys != [] {
      assert keys[|keys| - 1] in keys && forall k :: k in keys[..|keys| - 1] ==> k in keys;
      AbsentNone(keys[..|keys| - 1], present);
    }
  }

  // The changed keys are listed once each, so what follows a prefix is not in it.
  lemma ChangedOnce(base: JsonObject, client: JsonObject, prefix: seq<string>)
    requires prefix <= ChangedKeys(base, client)
    ensures forall k :: k in ChangedKeys(base, client)[|prefix|..] ==> k !in prefix
  {
    var keys := ChangedKeys(base, client);
    var none: Fields := map[];
    var members := set k | k in client.values.Keys && k !in none && Changed(base.values, client.values, k);
    AddedKeysListed(base.values, none, client.values, client.keys, client.values.Keys);
    forall k | k in keys[|prefix|..] ensures k !in prefix {
      var j :| 0 <= j < |keys| - |prefix| && keys[|prefix|..][j] == k;
      ListsOnce(keys, members, |prefix| + j);
      assert forall x :: x in prefix ==> x in keys[..|prefix| + j];
    }
  }

  // After the client with fewer changed keys, the other one adds only what follows them.
  lemma AddsOnlyTheRest(base: JsonObject, server: JsonObject, first: JsonObject, second: JsonObject)
    requires ChangedKeys(base, first) <= ChangedKeys(base, second)
    ensures var rest := ChangedKeys(base, second)[|ChangedKeys(base, first)|..];
      Absent(ChangedKeys(base, second), Merged(base, server, first).values) == Absent(rest, server.values)
  {
    var a, b, one := ChangedKeys(base, first), ChangedKeys(base, second), Merged(base, server, first);
    var rest := b[|a|..];
    assert b == a + rest;
    AbsentConcat(a, rest, one.values);
    forall k | k in a ensures k in one.values {
      MergedHas(base, server, first, k);
    }
    AbsentNone(a, one.values);
    ChangedOnce(base, second, a);
    forall k | k in rest ensures k in one.values <==> k in server.values {
      MergedHas(base, server, first, k);
    }
    AbsentSame(rest, one.values, server.values);
    assert [] + Absent(rest, one.values) == Absent(rest, one.values);
  }

  lemma AddsNothing(base: JsonObject, server: JsonObject, first: JsonObject, second: JsonObject)
    requires ChangedKeys(base, first) <= ChangedKeys(base, second)
    ensures Absent(ChangedKeys(base, first), Merged(base, server, second).values) == []
  {
    forall k | k in ChangedKeys(base, first) ensures k in Merged(base, server, second).values {
      MergedHas(base, server, second, k);
    }
    AbsentNone(ChangedKeys(base, first), Merged(base, server, second).values);
  }

  lemma SmallerFirst(base: JsonObject, server: JsonObject, first: JsonObject, second: JsonObject)
    requires ChangedKeys(base, first) <= ChangedKeys(base, second)
    ensures BothMerged(base, server, first, second).keys == server.keys + Absent(ChangedKeys(base, second), server.values)
  {
    var a, b := ChangedKeys(base, first), ChangedKeys(base, second);
    MergedKeys(base, server, first);
    MergedKeys(base, Merged(base, server, first), second);
    AddsOnlyTheRest(base, server, first, second);
    AbsentSplit(a, b, server.values);
    Regroup(server.keys, Absent(a, server.values), Absent(b[|a|..], server.values));
  }

  lemma AbsentSplit(a: seq<string>, b: seq<string>, present: Fields)
    requires a <= b
    ensures Absent(b, present) == Absent(a, present) + Absent(b[|a|..], present)
  {
    AbsentConcat(a, b[|a|..], present);
    assert a + b[|a|..] == b;
  }

  lemma Regroup(a: seq<string>, b: seq<string>, c: seq<string>)
    ensures (a + b) + c == a + (b + c)
  {
  }

  lemma LargerFirst(base: JsonObject, server: JsonObject, first: JsonObject, second: JsonObject)
    requires ChangedKeys(base, first) <= ChangedKeys(base, second)
    ensures BothMerged(base, server, second, first).keys == server.keys + Absent(ChangedKeys(base, second), server.values)
  {
    MergedKeys(base, server, second);
    MergedKeys(base, Merged(base, server, second), first);
    AddsNothing(base, server, first, second);
  }

  lemma PrefixKeysCommute(base: JsonObject, server: JsonObject, first: JsonObject, second: JsonObject)
    requires ChangedKeys(base, first) <= ChangedKeys(base, second)
    ensures BothMerged(base, server, first, second).keys == BothMerged(base, server, second, first).keys
  {
    SmallerFirst(base, server, first, second);
    LargerFirst(base, server, first, second);
  }

  lemma KeysFromEmpty(base: JsonObject, first: JsonObject, second: JsonObject)
    ensures BothMerged(base, EMPTY, first, second).keys
         == ChangedKeys(base, first) + Absent(ChangedKeys(base, second), Merged(base, EMPTY, first).values)
  {
    MergedKeys(base, EMPTY, first);
    MergedKeys(base, Merged(base, EMPTY, first), second);
    AllAbsent(ChangedKeys(base, first));
    assert EMPTY.keys + ChangedKeys(base, first) == ChangedKeys(base, first);
  }

  lemma CommutingKeysArePrefix(base: JsonObject, first: JsonObject, second: JsonObject)
    requires BothMerged(base, EMPTY, first, second).keys == BothMerged(base, EMPTY, second, first).keys
    ensures ChangedKeys(base, first) <= ChangedKeys(base, second) || ChangedKeys(base, second) <= ChangedKeys(base, first)
  {
    KeysFromEmpty(base, first, second);
    KeysFromEmpty(base, second, first);
    StartOf(ChangedKeys(base, first), Absent(ChangedKeys(base, second), Merged(base, EMPTY, first).values),
            ChangedKeys(base, second), Absent(ChangedKeys(base, first), Merged(base, EMPTY, second).values));
  }

  lemma {:induction false} AllAbsent(keys: seq<string>)
    ensures Absent(keys, map[]) == keys
  {
    if keys != [] {
      AllAbsent(keys[..|keys| - 1]);
    }
  }

  lemma StartOf(a: seq<string>, x: seq<string>, b: seq<string>, y: seq<string>)
    requires a + x == b + y
    ensures a <= b || b <= a
  {
    assert |a| <= |b| ==> a == (a + x)[..|a|] == (b + y)[..|a|] == b[..|a|];
    assert |b| <= |a| ==> b == (b + y)[..|b|] == (a + x)[..|b|] == a[..|b|];
  }

  // The whole payloads, with the order of their keys, agree for every server payload exactly
  // when the values do and one client's changed keys begin with the other's, in order.
  lemma MergeCommutesInOrder(ancestor: Option<JsonObject>, first: JsonObject, second: JsonObject)
    requires Orderless(first) && Orderless(second)
    ensures var base := BaseOf(ancestor);
      (forall server: JsonObject :: MergedTwice(ancestor, server, first, second) == MergedTwice(ancestor, server, second, first))
      <==> Agree(base, first, second)
           && (ChangedKeys(base, first) <= ChangedKeys(base, second) || ChangedKeys(base, second) <= ChangedKeys(base, first))
  {
    var base := BaseOf(ancestor);
    var prefixed := ChangedKeys(base, first) <= ChangedKeys(base, second) || ChangedKeys(base, second) <= ChangedKeys(base, first);
    forall server: JsonObject
      ensures MergedTwice(ancestor, server, first, second) == Some(BothMerged(base, server, first, second))
      ensures MergedTwice(ancestor, server, second, first) == Some(BothMerged(base, server, second, first))
      ensures Agree(base, first, second) && prefixed ==>
        BothMerged(base, server, first, second) == BothMerged(base, server, second, first)
    {
      OrderlessMergedTwice(ancestor, server, first, second);
      OrderlessMergedTwice(ancestor, server, second, first);
      if Agree(base, first, second) && prefixed {
        AgreedValues(base, server, first, second);
        if ChangedKeys(base, first) <= ChangedKeys(base, second) {
          PrefixKeysCommute(base, server, first, second);
        } else {
          PrefixKeysCommute(base, server, second, first);
        }
      }
    }
    if forall server: JsonObject :: MergedTwice(ancestor, server, first, second) == MergedTwice(ancestor, server, second, first) {
      assert MergedTwice(ancestor, EMPTY, first, second) == MergedTwice(ancestor, EMPTY, second, first);
      CommutingKeysArePrefix(base, first, second);
      if !Agree(base, first, second) {
        DisagreedValues(base, first, second);
      }
    }
  }

  function OrderDirective(order: seq<Json>): Json {
    Obj(Object(["conflictOrder"], map["conflictOrder" := Arr(order)]))
  }

  lemma ReadDirective(client: RawObject, order: seq<Json>)
    requires client.Get("_sync") == Some(OrderDirective(order)) && 1 <= |order| <= MAX_ORDER_FIELDS
    ensures ConflictOrder(client) == Some(order)
  {
    assert OrderDirective(order).members.Get("conflictOrder") == Some(Arr(order));
  }

  // The first merge cannot compare a text with a number, the second can, and then the
  // client's whole payload replaces what the first merge kept of the server.
  lemma DecidedOnlyLater(ancestor: JsonObject, server: JsonObject, client: JsonObject, x: string, y: string)
    requires ConflictOrder(client) == Some([Str(x), Str(y)])
    requires ancestor.Get(x) == Some(Num(0.0)) && server.Get(x) == Some(Str("text")) && client.Get(x) == Some(Num(1.0))
    requires ancestor.Get(y) == Some(Num(2.0)) && server.Get(y) == Some(Num(1.0)) && client.Get(y) == Some(Num(2.0))
    ensures var once := ThreeWayMerge(Some(ancestor), Some(server), Some(client));
      ThreeWayMerge(Some(ancestor), once, Some(client)) != once
  {
    var once := Merged(ancestor, server, client);
    MergeByKey(ancestor, server, client, x);
    MergeByKey(ancestor, server, client, y);
    assert [Str(x), Str(y)][1..] == [Str(y)];
    assert ScanOrder([Str(y)], once, client) == Some(client);
  }

  // Some field of the order that the client left as the ancestor has it is greater than the
  // server's, and every field before it was changed by the client or is equal on both sides.
  predicate ClientOvertakes(order: seq<Json>, ancestor: JsonObject, server: JsonObject, client: JsonObject) {
    order != [] && order[0].Str? &&
    match client.Get(order[0].str)
    case Some(Num(c)) => (
      if Changed(ancestor.values, client.values, order[0].str) then ClientOvertakes(order[1..], ancestor, server, client) else
        match server.Get(order[0].str)
        case Some(Num(s)) => c > s || (c == s && ClientOvertakes(order[1..], ancestor, server, client))
        case _ => false)
    case _ => false
  }

  // What the scan makes of a payload the client has already been merged into.
  lemma {:induction false} ScanAfterMerge(order: seq<Json>, ancestor: JsonObject, server: JsonObject, client: JsonObject)
    ensures var merged := Merged(ancestor, server, client);
      if ClientOvertakes(order, ancestor, server, client)
      then ScanOrder(order, merged, client) == Some(client) && merged != client
      else ScanOrder(order, merged, client) in {None, Some(merged)}
  {
    if order != [] && order[0].Str? {
      MergeByKey(ancestor, server, client, order[0].str);
      ScanAfterMerge(order[1..], ancestor, server, client);
    }
  }

  // Merging the same client again changes nothing exactly when there is no order directive,
  // or the order decides at once, or the client does not overtake what was kept of the server.
  lemma MergeIdempotentIff(ancestor: Option<JsonObject>, server: JsonObject, client: JsonObject)
    ensures var base := if ancestor.Some? then ancestor.value else EMPTY;
      var once := ThreeWayMerge(ancestor, Some(server), Some(client));
      ThreeWayMerge(ancestor, once, Some(client)) == once
      <==> PreferredPayload(server, client).Some? || ConflictOrder(client).None?
           || !ClientOvertakes(ConflictOrder(client).value, base, server, client)
  {
    var base: JsonObject := if ancestor.Some? then ancestor.value else EMPTY;
    SettledMerge(base, client, client);
    SettledMerge(base, Merged(base, server, client), client);
    if ConflictOrder(client).Some? {
      var order := ConflictOrder(client).value;
      ScanChoosesOne(order, server, client);
      ScanAfterMerge(order, base, server, client);
      ScanAgainstItself(order, client);
    }
  }

  lemma {:induction false} ScanChoosesOne(order: seq<Json>, server: JsonObject, client: JsonObject)
    ensures ScanOrder(order, server, client) in {None, Some(server), Some(client)}
  {
    if order != [] {
      ScanChoosesOne(order[1..], server, client);
    }
  }

  lemma {:induction false} ScanAgainstItself(order: seq<Json>, payload: JsonObject)
    ensures ScanOrder(order, payload, payload) == None
  {
    if order != [] {
      ScanAgainstItself(order[1..], payload);
    }
  }

  // With an order directive the merge is not always idempotent.
  lemma OrderedMergeNotIdempotent() returns (ancestor: JsonObject, server: JsonObject, client: JsonObject)
    ensures var once := ThreeWayMerge(Some(ancestor), Some(server), Some(client));
      ThreeWayMerge(Some(ancestor), once, Some(client)) != once
  {
    var x, y, s := "x", "y", "_sync";
    assert |s| == 5;
    ancestor := TwoFields(x, Num(0.0), y, Num(2.0));
    server := TwoFields(x, Str("text"), y, Num(1.0));
    client := TwoFields(x, Num(1.0), y, Num(2.0));
    ListsConcat(client.keys, [s], client.values.Keys, {s}) by {
      assert [s][..0] == [];
    }
    var values := client.values[s := OrderDirective([Str(x), Str(y)])];
    assert values.Keys == client.values.Keys + {s};
    client := Object(client.keys + [s], values);
    ReadDirective(client, [Str(x), Str(y)]);
    DecidedOnlyLater(ancestor, server, client, x, y);
  }

  function TwoFields(x: string, a: Json, y: string, b: Json): JsonObject
    requires x != y
  {
    var values := map[x := a, y := b];
    assert Lists([x, y], values.Keys) by {
      assert Lists([x], {x}) by {
        assert [x][..0] == [] && {x} - {x} == {};
      }
      assert [x, y][..1] == [x] && values.Keys - {y} == {x};
    }
    Object([x, y], values)
  }
}
