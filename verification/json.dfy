// JSON values as the synchronisation use cases see them: trees whose object
// keys keep their order, because two values are compared by their printed text.
module Json {
  import opened Base

  datatype Json =
    | Null
    | Bool(flag: bool)
    | Num(num: real)
    | Str(str: string)
    | Arr(items: seq<Json>)
    | Obj(members: RawObject)

  // The keys are exactly the members, each listed once.
  predicate Lists(keys: seq<string>, members: set<string>) {
    if keys == [] then members == {} else
      var last := keys[|keys| - 1];
      last in members && Lists(keys[..|keys| - 1], members - {last})
  }

  lemma {:induction false} ListsMembers(keys: seq<string>, members: set<string>)
    requires Lists(keys, members)
    ensures forall k :: k in keys <==> k in members
  {
    if keys != [] {
      var n := |keys| - 1;
      ListsMembers(keys[..n], members - {keys[n]});
      assert forall k :: k in keys <==> k in keys[..n] || k == keys[n];
    }
  }

  lemma {:induction false} ListsOnce(keys: seq<string>, members: set<string>, i: nat)
    requires Lists(keys, members) && i < |keys|
    ensures keys[i] in members && keys[i] !in keys[..i]
  {
    var n := |keys| - 1;
    if i < n {
      ListsOnce(keys[..n], members - {keys[n]}, i);
      assert keys[..n][..i] == keys[..i];
    } else {
      ListsMembers(keys[..n], members - {keys[n]});
    }
  }

  lemma {:induction false} ListsConcat(a: seq<string>, b: seq<string>, x: set<string>, y: set<string>)
    requires Lists(a, x) && Lists(b, y) && x !! y
    ensures Lists(a + b, x + y)
  {
    if b == [] {
      assert a + b == a && x + y == x;
    } else {
      var n := |b| - 1;
      ListsConcat(a, b[..n], x, y - {b[n]});
      assert (a + b)[..|a + b| - 1] == a + b[..n];
      assert x + y - {b[n]} == x + (y - {b[n]});
    }
  }

  datatype RawObject = Object(keys: seq<string>, values: map<string, Json>)
  {
    // The keys are listed once each, in the order they were added.
    predicate Valid() { Lists(keys, values.Keys) }

    // Property access; None is JavaScript's undefined.
    function Get(key: string): Option<Json> {
      if key in values then Some(values[key]) else None
    }

    // Property assignment: an existing key keeps its place, a new one goes last.
    function Put(key: string, value: Json): RawObject {
      Object(if key in values then keys else keys + [key], values[key := value])
    }
  }

  type JsonObject = o: RawObject | o.Valid() witness Object([], map[])

  const EMPTY: JsonObject := Object([], map[])
}
