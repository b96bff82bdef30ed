// The order in which the databases list texts.
module Texts {
  // Up to here the texts are equal, and here a ends or has the smaller character.
  predicate LessAt(a: string, b: string, k: nat) {
    k <= |a| && k < |b| && a[..k] == b[..k] && (k == |a| || a[k] < b[k])
  }

  predicate TextLess(a: string, b: string) { exists k | 0 <= k <= |a| :: LessAt(a, b, k) }

  lemma {:induction false} CommonPrefix(a: string, b: string) returns (k: nat)
    ensures k <= |a| && k <= |b| && a[..k] == b[..k]
    ensures k == |a| || k == |b| || a[k] != b[k]
  {
    if a == [] || b == [] || a[0] != b[0] {
      k := 0;
    } else {
      k := CommonPrefix(a[1..], b[1..]);
      assert a[..k + 1] == [a[0]] + a[1..][..k] && b[..k + 1] == [b[0]] + b[1..][..k];
      k := k + 1;
    }
  }

  lemma SameAt(a: string, b: string, n: nat, k: nat)
    requires k < n <= |a| && n <= |b|
    ensures a[..n] == b[..n] ==> a[k] == b[k]
  {
    assert a[k] == a[..n][k] && b[k] == b[..n][k];
  }

  lemma NotBoth(a: string, b: string, i: nat, j: nat)
    requires LessAt(a, b, i)
    ensures !LessAt(b, a, j)
  {
    if i < j <= |a| && j <= |b| {
      SameAt(a, b, j, i);
    } else if j < i {
      SameAt(a, b, i, j);
    }
  }

  lemma TextTotal(a: string, b: string)
    ensures a == b || TextLess(a, b) || TextLess(b, a)
    ensures !(TextLess(a, b) && TextLess(b, a)) && !TextLess(a, a)
  {
    var k := CommonPrefix(a, b);
    if k == |a| == |b| {
      assert a == a[..k] == b[..k] == b;
    } else {
      assert LessAt(a, b, k) || LessAt(b, a, k);
    }
    forall i, j | LessAt(a, b, i) ensures !LessAt(b, a, j) {
      NotBoth(a, b, i, j);
    }
    forall i, j | LessAt(a, a, i) ensures !LessAt(a, a, j) {
      NotBoth(a, a, i, j);
    }
  }

  lemma TextTransitive(a: string, b: string, c: string)
    requires TextLess(a, b) && TextLess(b, c)
    ensures TextLess(a, c)
  {
    var i :| 0 <= i <= |a| && LessAt(a, b, i);
    var j :| 0 <= j <= |b| && LessAt(b, c, j);
    var k := if i < j then i else j;
    assert a[..k] == a[..i][..k] == b[..i][..k] == b[..k] == b[..j][..k] == c[..j][..k] == c[..k];
    assert i < j ==> b[i] == b[..j][i] == c[..j][i] == c[i];
    assert j < i ==> a[j] == a[..i][j] == b[..i][j] == b[j];
    assert LessAt(a, c, k);
  }
}
