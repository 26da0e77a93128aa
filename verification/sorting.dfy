/** sort.Slice by a string key, as a function and as the in-place algorithm, and what makes its result unique. */
module Sorting {
  import opened Text

  predicate Sorted<T>(xs: seq<T>, key: T -> string) {
    forall i, j :: 0 <= i < j < |xs| ==> !Less(key(xs[j]), key(xs[i]))
  }

  predicate StrictlySorted<T>(xs: seq<T>, key: T -> string) {
    forall i, j :: 0 <= i < j < |xs| ==> Less(key(xs[i]), key(xs[j]))
  }

  function KeysOf<T>(xs: seq<T>, key: T -> string): (keys: seq<string>)
    ensures |keys| == |xs| && forall i :: 0 <= i < |xs| ==> keys[i] == key(xs[i])
  {
    seq(|xs|, i requires 0 <= i < |xs| => key(xs[i]))
  }

  /** Inserts x behind every element that is not greater. */
  function Insert<T>(x: T, xs: seq<T>, key: T -> string): seq<T> {
    if xs == [] || Less(key(x), key(xs[0])) then [x] + xs else [xs[0]] + Insert(x, xs[1..], key)
  }

  /** The elements in key order; elements with equal keys keep their order. */
  function SortBy<T>(xs: seq<T>, key: T -> string): seq<T> {
    if xs == [] then [] else Insert(xs[|xs| - 1], SortBy(xs[..|xs| - 1], key), key)
  }

  // ----- Sorting permutes -----

  lemma {:induction false} InsertPermutes<T>(x: T, xs: seq<T>, key: T -> string)
    ensures multiset(Insert(x, xs, key)) == multiset([x] + xs)
    ensures |Insert(x, xs, key)| == |xs| + 1
  {
    if xs != [] && !Less(key(x), key(xs[0])) {
      InsertPermutes(x, xs[1..], key);
      assert xs == [xs[0]] + xs[1..];
    }
  }

  lemma {:induction false} SortPermutes<T>(xs: seq<T>, key: T -> string)
    ensures multiset(SortBy(xs, key)) == multiset(xs) && |SortBy(xs, key)| == |xs|
  {
    if xs != [] {
      var front, last := xs[..|xs| - 1], xs[|xs| - 1];
      SortPermutes(front, key);
      InsertPermutes(last, SortBy(front, key), key);
      assert xs == front + [last];
    }
  }

  lemma SortKeepsElements<T>(xs: seq<T>, key: T -> string)
    ensures forall x :: x in SortBy(xs, key) <==> x in xs
    ensures |SortBy(xs, key)| == |xs|
  {
    SortPermutes(xs, key);
    forall x ensures x in SortBy(xs, key) <==> x in xs {
      assert x in SortBy(xs, key) <==> x in multiset(SortBy(xs, key));
      assert x in xs <==> x in multiset(xs);
    }
  }

  // ----- Sorting sorts -----

  lemma NotLessTransitive(a: string, b: string, c: string)
    requires !Less(b, a) && !Less(c, b)
    ensures !Less(c, a)
  {
    LessTotal(a, b);
    LessTotal(b, c);
    if Less(a, b) && Less(b, c) {
      LessTransitive(a, b, c);
    }
    LessAsymmetric(a, b);
    LessAsymmetric(b, c);
    LessAsymmetric(a, c);
  }

  lemma LessAsymmetric(a: string, b: string)
    ensures !(Less(a, b) && Less(b, a))
  {
    LessIrreflexive(a);
    if Less(a, b) && Less(b, a) {
      LessTransitive(a, b, a);
    }
  }

  lemma SortedCons<T>(x: T, xs: seq<T>, key: T -> string)
    requires Sorted(xs, key) && forall y :: y in xs ==> !Less(key(y), key(x))
    ensures Sorted([x] + xs, key)
  {
    var ys := [x] + xs;
    forall i, j | 0 <= i < j < |ys| ensures !Less(key(ys[j]), key(ys[i])) {
      assert ys[j] == xs[j - 1] && ys[j] in xs;
    }
  }

  lemma {:induction false} InsertSorted<T>(x: T, xs: seq<T>, key: T -> string)
    requires Sorted(xs, key)
    ensures Sorted(Insert(x, xs, key), key)
  {
    if xs == [] {
    } else if Less(key(x), key(xs[0])) {
      LessAsymmetric(key(x), key(xs[0]));
      forall y | y in xs ensures !Less(key(y), key(x)) {
        var i :| 0 <= i < |xs| && xs[i] == y;
        LessIrreflexive(key(y));
        NotLessTransitive(key(x), key(xs[0]), key(y));
      }
      SortedCons(x, xs, key);
    } else {
      var rest := xs[1..];
      InsertSorted(x, rest, key);
      forall y | y in Insert(x, rest, key) ensures !Less(key(y), key(xs[0])) {
        InsertPermutes(x, rest, key);
        assert y in multiset([x] + rest);
        if y in rest {
          var i :| 0 <= i < |rest| && rest[i] == y;
          assert xs[i + 1] == y;
        }
      }
      SortedCons(xs[0], Insert(x, rest, key), key);
    }
  }

  lemma {:induction false} SortSorts<T>(xs: seq<T>, key: T -> string)
    ensures Sorted(SortBy(xs, key), key)
  {
    if xs != [] {
      SortSorts(xs[..|xs| - 1], key);
      InsertSorted(xs[|xs| - 1], SortBy(xs[..|xs| - 1], key), key);
    }
  }

  // ----- The result is unique -----

  /** Elements with the same key are the same element. */
  ghost predicate KeyDetermines<T>(xs: seq<T>, key: T -> string) {
    forall x, y :: x in xs && y in xs && key(x) == key(y) ==> x == y
  }

  /** Whatever algorithm sorts: if keys determine elements, there is one sorted permutation only. */
  lemma {:induction false} SortedUnique<T>(xs: seq<T>, ys: seq<T>, key: T -> string)
    requires Sorted(xs, key) && Sorted(ys, key) && multiset(xs) == multiset(ys) && KeyDetermines(xs, key)
    ensures xs == ys
  {
    if xs == [] {
      assert |ys| == |multiset(ys)| == 0;
    } else {
      assert |ys| == |multiset(ys)| == |multiset(xs)| == |xs|;
      SameFirst(xs, ys, key);
      assert xs == [xs[0]] + xs[1..] && ys == [ys[0]] + ys[1..];
      TailPermutes(xs, ys);
      SortedUnique(xs[1..], ys[1..], key);
    }
  }

  lemma TailPermutes<T>(xs: seq<T>, ys: seq<T>)
    requires xs != [] && ys != [] && xs[0] == ys[0] && multiset(xs) == multiset(ys)
    ensures multiset(xs[1..]) == multiset(ys[1..])
  {
    assert xs == [xs[0]] + xs[1..] && ys == [ys[0]] + ys[1..];
    assert multiset(xs[1..]) == multiset(xs) - multiset{xs[0]};
    assert multiset(ys[1..]) == multiset(ys) - multiset{xs[0]};
  }

  lemma SameFirst<T>(xs: seq<T>, ys: seq<T>, key: T -> string)
    requires xs != [] && ys != []
    requires Sorted(xs, key) && Sorted(ys, key) && multiset(xs) == multiset(ys) && KeyDetermines(xs, key)
    ensures xs[0] == ys[0]
  {
    assert xs[0] in multiset(ys) && ys[0] in multiset(xs);
    FirstIsLeast(xs, key, ys[0]);
    FirstIsLeast(ys, key, xs[0]);
    LessTotal(key(xs[0]), key(ys[0]));
  }

  lemma FirstIsLeast<T>(xs: seq<T>, key: T -> string, y: T)
    requires Sorted(xs, key) && y in xs
    ensures !Less(key(y), key(xs[0]))
  {
    var i :| 0 <= i < |xs| && xs[i] == y;
    LessIrreflexive(key(y));
  }

  lemma DeterminesPermutation<T>(xs: seq<T>, ys: seq<T>, key: T -> string)
    requires multiset(xs) == multiset(ys) && KeyDetermines(xs, key)
    ensures KeyDetermines(ys, key)
  {
    forall x, y | x in ys && y in ys && key(x) == key(y) ensures x == y {
      assert x in multiset(ys) && y in multiset(ys);
    }
  }

  lemma SortOfPermutation<T>(xs: seq<T>, ys: seq<T>, key: T -> string)
    requires multiset(xs) == multiset(ys) && KeyDetermines(xs, key)
    ensures SortBy(xs, key) == SortBy(ys, key)
  {
    var a, b := SortBy(xs, key), SortBy(ys, key);
    SortSorts(xs, key);
    SortSorts(ys, key);
    SortPermutes(xs, key);
    SortPermutes(ys, key);
    DeterminesPermutation(xs, a, key);
    SortedUnique(a, b, key);
  }

  lemma {:induction false} InsertLast<T>(x: T, xs: seq<T>, key: T -> string)
    requires Sorted(xs + [x], key)
    ensures Insert(x, xs, key) == xs + [x]
  {
    if xs != [] {
      assert (xs + [x])[0] == xs[0] && (xs + [x])[|xs|] == x;
      assert xs[1..] + [x] == (xs + [x])[1..];
      InsertLast(x, xs[1..], key);
      assert xs == [xs[0]] + xs[1..];
    }
  }

  lemma {:induction false} SortOfSorted<T>(xs: seq<T>, key: T -> string)
    requires Sorted(xs, key)
    ensures SortBy(xs, key) == xs
  {
    if xs != [] {
      var front, last := xs[..|xs| - 1], xs[|xs| - 1];
      assert xs == front + [last];
      SortOfSorted(front, key);
      InsertLast(last, front, key);
    }
  }

  lemma {:induction false} InsertDistinct<T>(x: T, xs: seq<T>, key: T -> string)
    requires Distinct(KeysOf([x] + xs, key))
    ensures Distinct(KeysOf(Insert(x, xs, key), key))
  {
    KeysCons(x, xs, key);
    DistinctCons(key(x), KeysOf(xs, key));
    if xs != [] && !Less(key(x), key(xs[0])) {
      var rest := xs[1..];
      assert xs == [xs[0]] + rest;
      KeysCons(xs[0], rest, key);
      DistinctCons(key(xs[0]), KeysOf(rest, key));
      KeysCons(x, rest, key);
      DistinctCons(key(x), KeysOf(rest, key));
      assert key(x) !in KeysOf(rest, key) && key(x) != key(xs[0]) by {
        assert KeysOf(xs, key) == [key(xs[0])] + KeysOf(rest, key);
      }
      InsertDistinct(x, rest, key);
      InsertAddsKey(x, rest, key, key(xs[0]));
      KeysCons(xs[0], Insert(x, rest, key), key);
      DistinctCons(key(xs[0]), KeysOf(Insert(x, rest, key), key));
    }
  }

  lemma KeysCons<T>(x: T, xs: seq<T>, key: T -> string)
    ensures KeysOf([x] + xs, key) == [key(x)] + KeysOf(xs, key)
  {
  }

  lemma {:induction false} InsertAddsKey<T>(x: T, xs: seq<T>, key: T -> string, k: string)
    requires k != key(x) && k !in KeysOf(xs, key)
    ensures k !in KeysOf(Insert(x, xs, key), key)
  {
    KeysCons(x, xs, key);
    if xs != [] && !Less(key(x), key(xs[0])) {
      var rest := xs[1..];
      assert xs == [xs[0]] + rest;
      KeysCons(xs[0], rest, key);
      InsertAddsKey(x, rest, key, k);
      KeysCons(xs[0], Insert(x, rest, key), key);
    }
  }

  lemma KeysSwap<T>(front: seq<T>, last: T, sorted: seq<T>, key: T -> string)
    requires Distinct(KeysOf(front + [last], key)) && Distinct(KeysOf(sorted, key))
    requires forall x :: x in sorted <==> x in front
    ensures Distinct(KeysOf([last] + sorted, key))
  {
    forall i | 0 <= i < |sorted| ensures key(sorted[i]) != key(last) {
      assert sorted[i] in front;
      var j :| 0 <= j < |front| && front[j] == sorted[i];
      assert KeysOf(front + [last], key)[j] != KeysOf(front + [last], key)[|front|];
    }
    KeysCons(last, sorted, key);
    DistinctCons(key(last), KeysOf(sorted, key));
  }

  /** Sorting keeps keys distinct. */
  lemma {:induction false} SortDistinct<T>(xs: seq<T>, key: T -> string)
    requires Distinct(KeysOf(xs, key))
    ensures Distinct(KeysOf(SortBy(xs, key), key))
  {
    if xs != [] {
      var front, last := xs[..|xs| - 1], xs[|xs| - 1];
      assert forall i :: 0 <= i < |front| ==> KeysOf(front, key)[i] == KeysOf(xs, key)[i];
      SortDistinct(front, key);
      SortKeepsElements(front, key);
      assert xs == front + [last];
      KeysSwap(front, last, SortBy(front, key), key);
      InsertDistinct(last, SortBy(front, key), key);
    }
  }

  lemma DistinctIsStrict<T>(xs: seq<T>, key: T -> string)
    requires Sorted(xs, key) && Distinct(KeysOf(xs, key))
    ensures StrictlySorted(xs, key)
  {
    forall i, j | 0 <= i < j < |xs| ensures Less(key(xs[i]), key(xs[j])) {
      assert KeysOf(xs, key)[i] != KeysOf(xs, key)[j];
      LessTotal(key(xs[i]), key(xs[j]));
    }
  }

  // ----- The in-place algorithm -----

  lemma {:induction false} InsertAt<T>(x: T, xs: seq<T>, key: T -> string, j: nat)
    requires j <= |xs|
    requires forall k :: 0 <= k < j ==> !Less(key(x), key(xs[k]))
    requires j < |xs| ==> Less(key(x), key(xs[j]))
    ensures Insert(x, xs, key) == xs[..j] + [x] + xs[j..]
  {
    hide Less;
    if j > 0 {
      InsertAt(x, xs[1..], key, j - 1);
      assert xs[1..][..j - 1] == xs[1..j] && xs[1..][j - 1..] == xs[j..];
      assert xs[..j] == [xs[0]] + xs[1..j];
    }
  }

  /** Insertion sort, the algorithm sort.Slice uses on short slices. */
  method SortSlice<T>(a: array<T>, key: T -> string)
    modifies a
    ensures a[..] == SortBy(old(a[..]), key)
  {
    ghost var all := a[..];
    for i := 0 to a.Length
      invariant a[..i] == SortBy(all[..i], key)
      invariant a[i..] == all[i..]
    {
      SortSorts(all[..i], key);
      assert a[i] == all[i..][0];
      SinkInto(a, i, key);
      assert all[..i + 1][..i] == all[..i];
      assert a[i + 1..] == all[i..][1..];
    }
    assert all[..a.Length] == all;
  }

  /** Swaps element i towards the front of the sorted part until its predecessor is not greater. */
  method SinkInto<T>(a: array<T>, i: nat, key: T -> string)
    requires i < a.Length && Sorted(a[..i], key)
    modifies a
    ensures a[..i + 1] == Insert(old(a[i]), old(a[..i]), key)
    ensures a[i + 1..] == old(a[i + 1..])
  {
    ghost var x, before, behind := a[i], a[..i], a[i + 1..];
    var j := i;
    while j > 0 && Less(key(a[j]), key(a[j - 1]))
      invariant j <= i && a[j] == x
      invariant forall k :: 0 <= k < j ==> a[k] == before[k]
      invariant forall k :: j < k <= i ==> a[k] == before[k - 1]
      invariant a[i + 1..] == behind
      invariant j < i ==> Less(key(x), key(before[j]))
    {
      a[j], a[j - 1] := a[j - 1], a[j];
      j := j - 1;
    }
    forall k | 0 <= k < j ensures !Less(key(x), key(before[k])) {
      LessIrreflexive(key(before[k]));
      NotLessTransitive(key(before[k]), key(before[j - 1]), key(x));
    }
    InsertAt(x, before, key, j);
    assert a[..i + 1] == before[..j] + [x] + before[j..];
  }
}
