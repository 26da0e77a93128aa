/** Lists with a string key per element, seen as finite maps. */
module Keyed {
  import opened Text
  import opened Sorting

  /** The number of the first element with the key, or -1. */
  function Find<T>(xs: seq<T>, key: T -> string, k: string, i: nat := 0): (n: int)
    requires i <= |xs|
    ensures n == -1 || i <= n < |xs|
    ensures n != -1 ==> key(xs[n]) == k
    ensures forall j :: i <= j < |xs| && (n == -1 || j < n) ==> key(xs[j]) != k
    decreases |xs| - i
  {
    if i == |xs| then -1 else if key(xs[i]) == k then i else Find(xs, key, k, i + 1)
  }

  lemma FirstFound<T>(xs: seq<T>, key: T -> string, k: string, n: int)
    requires -1 <= n < |xs| && (n != -1 ==> key(xs[n]) == k)
    requires forall j :: 0 <= j < |xs| && (n == -1 || j < n) ==> key(xs[j]) != k
    ensures Find(xs, key, k) == n
  {
    var f := Find(xs, key, k);
    assert f != -1 ==> key(xs[f]) == k;
  }

  /** The map a list stands for: later elements win. */
  function ToMap<T>(xs: seq<T>, key: T -> string): map<string, T> {
    if xs == [] then map[] else ToMap(xs[..|xs| - 1], key)[key(xs[|xs| - 1]) := xs[|xs| - 1]]
  }

  predicate DistinctKeys<T>(xs: seq<T>, key: T -> string) {
    Distinct(KeysOf(xs, key))
  }

  lemma DistinctKeysAt<T>(xs: seq<T>, key: T -> string)
    ensures DistinctKeys(xs, key) <==> forall i, j :: 0 <= i < j < |xs| ==> key(xs[i]) != key(xs[j])
  {
    var keys := KeysOf(xs, key);
    forall i, j | 0 <= i < j < |xs| && DistinctKeys(xs, key) ensures key(xs[i]) != key(xs[j]) {
      assert keys[i] != keys[j];
    }
  }

  lemma {:induction false} ToMapKeys<T>(xs: seq<T>, key: T -> string, k: string)
    ensures k in ToMap(xs, key) <==> Find(xs, key, k) != -1
  {
    if xs != [] {
      var front, last := xs[..|xs| - 1], xs[|xs| - 1];
      ToMapKeys(front, key, k);
      if Find(front, key, k) != -1 {
        assert xs[Find(front, key, k)] == front[Find(front, key, k)];
      }
      if Find(xs, key, k) != -1 && key(last) != k {
        assert front[Find(xs, key, k)] == xs[Find(xs, key, k)];
      }
    }
  }

  lemma {:induction false} ToMapAt<T>(xs: seq<T>, key: T -> string, i: nat)
    requires DistinctKeys(xs, key) && i < |xs|
    ensures key(xs[i]) in ToMap(xs, key) && ToMap(xs, key)[key(xs[i])] == xs[i]
  {
    var n := |xs| - 1;
    DistinctKeysAt(xs, key);
    if i < n {
      DistinctKeysAt(xs[..n], key);
      ToMapAt(xs[..n], key, i);
    }
  }

  /** Looking a key up in a list without duplicates is looking it up in its map. */
  lemma Lookup<T>(xs: seq<T>, key: T -> string, k: string)
    requires DistinctKeys(xs, key)
    ensures k in ToMap(xs, key) <==> Find(xs, key, k) != -1
    ensures k in ToMap(xs, key) ==> ToMap(xs, key)[k] == xs[Find(xs, key, k)]
  {
    ToMapKeys(xs, key, k);
    if Find(xs, key, k) != -1 {
      ToMapAt(xs, key, Find(xs, key, k));
    }
  }

  /** Two duplicate-free lists with the same elements stand for the same map. */
  lemma SameElementsSameMap<T>(xs: seq<T>, ys: seq<T>, key: T -> string)
    requires DistinctKeys(xs, key) && DistinctKeys(ys, key) && forall x :: x in xs <==> x in ys
    ensures ToMap(xs, key) == ToMap(ys, key)
  {
    forall k ensures k in ToMap(xs, key) <==> k in ToMap(ys, key)
      ensures k in ToMap(xs, key) ==> ToMap(xs, key)[k] == ToMap(ys, key)[k]
    {
      Lookup(xs, key, k);
      Lookup(ys, key, k);
      var i, j := Find(xs, key, k), Find(ys, key, k);
      if i != -1 {
        assert xs[i] in ys;
        var n :| 0 <= n < |ys| && ys[n] == xs[i];
        ToMapAt(ys, key, n);
      }
      if j != -1 {
        assert ys[j] in xs;
      }
    }
  }

  lemma AppendMap<T>(xs: seq<T>, key: T -> string, x: T)
    requires DistinctKeys(xs, key) && Find(xs, key, key(x)) == -1
    ensures DistinctKeys(xs + [x], key)
    ensures ToMap(xs + [x], key) == ToMap(xs, key)[key(x) := x]
  {
    DistinctKeysAt(xs, key);
    DistinctKeysAt(xs + [x], key);
    assert (xs + [x])[..|xs|] == xs;
  }

  lemma ReplaceMap<T>(xs: seq<T>, key: T -> string, i: nat, x: T)
    requires DistinctKeys(xs, key) && i < |xs| && key(xs[i]) == key(x)
    ensures DistinctKeys(xs[i := x], key)
    ensures ToMap(xs[i := x], key) == ToMap(xs, key)[key(x) := x]
  {
    var ys := xs[i := x];
    DistinctKeysAt(xs, key);
    DistinctKeysAt(ys, key);
    var a, b := ToMap(ys, key), ToMap(xs, key)[key(x) := x];
    forall k ensures k in a <==> k in b
      ensures k in a ==> a[k] == b[k]
    {
      Lookup(xs, key, k);
      Lookup(ys, key, k);
      FindReplaced(xs, key, i, x, k);
    }
    assert a == b;
  }

  lemma FindReplaced<T>(xs: seq<T>, key: T -> string, i: nat, x: T, k: string)
    requires i < |xs| && key(xs[i]) == key(x)
    ensures Find(xs[i := x], key, k) == Find(xs, key, k)
  {
    var ys, n, m := xs[i := x], Find(xs[i := x], key, k), Find(xs, key, k);
    assert forall j :: 0 <= j < |xs| ==> key(ys[j]) == key(xs[j]);
    if n != -1 {
      assert key(xs[n]) == k;
    }
    if m != -1 {
      assert key(ys[m]) == k;
    }
  }

  lemma RemoveMap<T>(xs: seq<T>, key: T -> string, i: nat)
    requires DistinctKeys(xs, key) && i < |xs|
    ensures DistinctKeys(xs[..i] + xs[i + 1..], key)
    ensures ToMap(xs[..i] + xs[i + 1..], key) == ToMap(xs, key) - {key(xs[i])}
  {
    var ys := xs[..i] + xs[i + 1..];
    RemovedKeys(xs, key, i);
    forall k
      ensures Find(ys, key, k) != -1 <==> Find(xs, key, k) != -1 && k != key(xs[i])
      ensures Find(ys, key, k) != -1 ==> ys[Find(ys, key, k)] == xs[Find(xs, key, k)]
    {
      FindRemoved(xs, key, i, k);
    }
    MapWithout(xs, ys, key, key(xs[i]));
  }

  lemma MapWithout<T>(xs: seq<T>, ys: seq<T>, key: T -> string, gone: string)
    requires DistinctKeys(xs, key) && DistinctKeys(ys, key)
    requires forall k :: Find(ys, key, k) != -1 <==> Find(xs, key, k) != -1 && k != gone
    requires forall k :: Find(ys, key, k) != -1 ==> ys[Find(ys, key, k)] == xs[Find(xs, key, k)]
    ensures ToMap(ys, key) == ToMap(xs, key) - {gone}
  {
    var a, b := ToMap(ys, key), ToMap(xs, key) - {gone};
    forall k
      ensures k in a <==> k in b
      ensures k in a ==> a[k] == b[k]
    {
      Lookup(xs, key, k);
      Lookup(ys, key, k);
    }
    assert a == b;
  }

  lemma RemovedKeys<T>(xs: seq<T>, key: T -> string, i: nat)
    requires DistinctKeys(xs, key) && i < |xs|
    ensures DistinctKeys(xs[..i] + xs[i + 1..], key)
  {
    var ys := xs[..i] + xs[i + 1..];
    DistinctKeysAt(xs, key);
    DistinctKeysAt(ys, key);
    assert forall j :: 0 <= j < |ys| ==> ys[j] == xs[if j < i then j else j + 1];
  }

  lemma FindUnique<T>(xs: seq<T>, key: T -> string, k: string, n: nat)
    requires DistinctKeys(xs, key) && n < |xs| && key(xs[n]) == k
    ensures Find(xs, key, k) == n
  {
    DistinctKeysAt(xs, key);
  }

  lemma FindRemoved<T>(xs: seq<T>, key: T -> string, i: nat, k: string)
    requires i < |xs| && DistinctKeys(xs, key) && DistinctKeys(xs[..i] + xs[i + 1..], key)
    ensures
      var ys, n := xs[..i] + xs[i + 1..], Find(xs, key, k);
      && (n == -1 || n == i ==> Find(ys, key, k) == -1)
      && (n != -1 && n != i ==> Find(ys, key, k) != -1 && ys[Find(ys, key, k)] == xs[n])
      && (n == i <==> k == key(xs[i]))
  {
    var ys, n := xs[..i] + xs[i + 1..], Find(xs, key, k);
    if k == key(xs[i]) {
      FindUnique(xs, key, k, i);
    }
    var m := Find(ys, key, k);
    if m != -1 {
      var j := if m < i then m else m + 1;
      assert ys[m] == xs[j];
      FindUnique(xs, key, k, j);
    }
    if n != -1 && n != i {
      var j := if n < i then n else n - 1;
      assert ys[j] == xs[n];
      FindUnique(ys, key, k, j);
    }
  }

  /** The elements of a map listed in strictly increasing order of their names. */
  ghost predicate IsListing<T(!new)>(m: map<string, T>, xs: seq<T>, key: T -> string, name: T -> string) {
    && StrictlySorted(xs, name)
    && (forall k :: k in m ==> m[k] in xs)
    && forall x :: x in xs ==> key(x) in m && m[key(x)] == x
  }

  /** Sorting the list by name lists its map. */
  lemma SortedListing<T(!new)>(xs: seq<T>, key: T -> string, name: T -> string)
    requires DistinctKeys(xs, key) && Distinct(KeysOf(xs, name))
    ensures IsListing(ToMap(xs, key), SortBy(xs, name), key, name)
  {
    var m, sorted := ToMap(xs, key), SortBy(xs, name);
    SortSorts(xs, name);
    SortDistinct(xs, name);
    SortKeepsElements(xs, name);
    DistinctIsStrict(sorted, name);
    forall k | k in m ensures m[k] in sorted {
      Lookup(xs, key, k);
    }
    forall x | x in sorted ensures key(x) in m && m[key(x)] == x {
      assert x in xs;
      var i :| 0 <= i < |xs| && xs[i] == x;
      ToMapAt(xs, key, i);
    }
  }

  /** There is only one listing of a map. */
  lemma ListingUnique<T(!new)>(m: map<string, T>, xs: seq<T>, ys: seq<T>, key: T -> string, name: T -> string)
    requires IsListing(m, xs, key, name) && IsListing(m, ys, key, name)
    ensures xs == ys
  {
    StrictUnique(xs, ys, name);
  }

  lemma {:induction false} StrictUnique<T>(xs: seq<T>, ys: seq<T>, name: T -> string)
    requires StrictlySorted(xs, name) && StrictlySorted(ys, name) && forall x :: x in xs <==> x in ys
    ensures xs == ys
  {
    if xs == [] {
      NoElements(ys);
    } else {
      assert xs[0] in ys;
      StrictFirst(xs, name, ys[0]);
      StrictFirst(ys, name, xs[0]);
      LessAsymmetric(name(xs[0]), name(ys[0]));
      StrictRest(xs, name);
      StrictRest(ys, name);
      StrictUnique(xs[1..], ys[1..], name);
    }
  }

  lemma NoElements<T>(ys: seq<T>)
    ensures ys != [] ==> exists y :: y in ys
  {
    if ys != [] {
      assert ys[0] in ys;
    }
  }

  lemma StrictFirst<T>(xs: seq<T>, name: T -> string, y: T)
    requires xs != [] && StrictlySorted(xs, name) && y in xs
    ensures y == xs[0] || Less(name(xs[0]), name(y))
  {
  }

  lemma StrictRest<T>(xs: seq<T>, name: T -> string)
    requires xs != [] && StrictlySorted(xs, name)
    ensures StrictlySorted(xs[1..], name) && forall x :: x in xs[1..] <==> x in xs && x != xs[0]
  {
    LessIrreflexive(name(xs[0]));
    assert forall x :: x in xs <==> x == xs[0] || x in xs[1..];
  }
}
