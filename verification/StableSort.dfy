/** Sorting by an integer key that keeps the order of equal keys: what std::stable_sort promises. */
module StableSort {

  ghost predicate Sorted<T(!new)>(xs: seq<T>, key: T -> int) {
    forall i, j :: 0 <= i < j < |xs| ==> key(xs[i]) <= key(xs[j])
  }

  /** The elements with key c, in order. */
  function WithKey<T>(xs: seq<T>, key: T -> int, c: int): seq<T> {
    if xs == [] then []
    else (if key(xs[0]) == c then [xs[0]] else []) + WithKey(xs[1..], key, c)
  }

  /** ys is xs sorted, and elements with equal keys keep their order. */
  ghost predicate StablySorted<T(!new)>(xs: seq<T>, ys: seq<T>, key: T -> int) {
    Sorted(ys, key) && forall c :: WithKey(ys, key, c) == WithKey(xs, key, c)
  }

  function Place<T>(x: T, ys: seq<T>, key: T -> int): seq<T> {
    if ys == [] || key(x) <= key(ys[0]) then [x] + ys else [ys[0]] + Place(x, ys[1..], key)
  }

  function Sort<T>(xs: seq<T>, key: T -> int): seq<T> {
    if xs == [] then [] else Place(xs[0], Sort(xs[1..], key), key)
  }

  lemma SortedCons<T(!new)>(x: T, ys: seq<T>, key: T -> int)
    requires Sorted(ys, key) && (ys == [] || key(x) <= key(ys[0]))
    ensures Sorted([x] + ys, key)
  {
    var all := [x] + ys;
    forall i, j | 0 <= i < j < |all| ensures key(all[i]) <= key(all[j]) {
      if i == 0 && j > 1 { assert key(ys[0]) <= key(ys[j - 1]); }
    }
  }

  lemma {:induction false} PlaceSorted<T(!new)>(x: T, ys: seq<T>, key: T -> int)
    requires Sorted(ys, key)
    ensures Sorted(Place(x, ys, key), key)
    ensures Place(x, ys, key)[0] == if ys == [] || key(x) <= key(ys[0]) then x else ys[0]
    decreases |ys|
  {
    if ys == [] || key(x) <= key(ys[0]) {
      SortedCons(x, ys, key);
    } else {
      assert Sorted(ys[1..], key);
      PlaceSorted(x, ys[1..], key);
      SortedCons(ys[0], Place(x, ys[1..], key), key);
    }
  }

  lemma {:induction false} PlaceCount<T>(x: T, ys: seq<T>, key: T -> int)
    ensures multiset(Place(x, ys, key)) == multiset([x]) + multiset(ys)
    decreases |ys|
  {
    if ys != [] && key(x) > key(ys[0]) {
      PlaceCount(x, ys[1..], key);
      assert ys == [ys[0]] + ys[1..];
    }
  }

  lemma ClassCons<T>(x: T, ys: seq<T>, key: T -> int, c: int)
    ensures WithKey([x] + ys, key, c) == (if key(x) == c then [x] else []) + WithKey(ys, key, c)
  {
    assert ([x] + ys)[1..] == ys;
  }

  lemma {:induction false} PlaceClass<T>(x: T, ys: seq<T>, key: T -> int, c: int)
    ensures WithKey(Place(x, ys, key), key, c) == (if key(x) == c then [x] else []) + WithKey(ys, key, c)
    decreases |ys|
  {
    if ys == [] || key(x) <= key(ys[0]) {
      ClassCons(x, ys, key, c);
    } else {
      var y, rest := ys[0], ys[1..];
      PlaceClass(x, rest, key, c);
      assert ys == [y] + rest && Place(x, ys, key) == [y] + Place(x, rest, key);
      hide WithKey, Place;
      ClassCons(y, rest, key, c);
      ClassCons(y, Place(x, rest, key), key, c);
      var front, tail := if key(x) == c then [x] else [], WithKey(rest, key, c);
      if key(y) == c {
        assert front == [] && front + tail == tail;
        assert front + ([y] + tail) == [y] + tail;
      } else {
        assert [] + (front + tail) == front + tail && [] + tail == tail;
      }
    }
  }

  /** The sort is a stable one. */
  lemma {:induction false} SortIsStable<T(!new)>(xs: seq<T>, key: T -> int)
    ensures StablySorted(xs, Sort(xs, key), key)
    ensures multiset(Sort(xs, key)) == multiset(xs)
    ensures |Sort(xs, key)| == |xs|
    decreases |xs|
  {
    if xs != [] {
      SortIsStable(xs[1..], key);
      var rest := Sort(xs[1..], key);
      PlaceSorted(xs[0], rest, key);
      PlaceCount(xs[0], rest, key);
      assert xs == [xs[0]] + xs[1..];
      forall c ensures WithKey(Sort(xs, key), key, c) == WithKey(xs, key, c) {
        PlaceClass(xs[0], rest, key, c);
      }
      SameCount(Sort(xs, key), xs);
    }
  }

  lemma SameCount<T>(a: seq<T>, b: seq<T>)
    requires multiset(a) == multiset(b)
    ensures |a| == |b|
  {
    assert |multiset(a)| == |a| && |multiset(b)| == |b|;
  }

  lemma {:induction false} ClassHead<T(!new)>(xs: seq<T>, key: T -> int, c: int)
    requires Sorted(xs, key) && WithKey(xs, key, c) != []
    ensures xs != [] && key(xs[0]) <= c
    decreases |xs|
  {
    if xs != [] && key(xs[0]) != c {
      assert Sorted(xs[1..], key);
      ClassHead(xs[1..], key, c);
      assert key(xs[0]) <= key(xs[1..][0]);
    }
  }

  /** There is one stable sorting of a list, whatever algorithm finds it. */
  lemma {:induction false} StableSortUnique<T(!new)>(a: seq<T>, b: seq<T>, key: T -> int)
    requires Sorted(a, key) && Sorted(b, key)
    requires forall c :: WithKey(a, key, c) == WithKey(b, key, c)
    ensures a == b
    decreases |a|
  {
    assert b != [] ==> WithKey(b, key, key(b[0])) == WithKey(a, key, key(b[0])) != [];
    if a != [] {
      var c := key(a[0]);
      assert WithKey(a, key, c)[0] == a[0];
      ClassHead(b, key, c);
      assert WithKey(a, key, key(b[0])) == WithKey(b, key, key(b[0])) != [];
      ClassHead(a, key, key(b[0]));
      assert WithKey(b, key, c)[0] == b[0];
      forall d ensures WithKey(a[1..], key, d) == WithKey(b[1..], key, d) {
        var front := if key(a[0]) == d then [a[0]] else [];
        assert WithKey(a, key, d) == WithKey(b, key, d);
        assert front + WithKey(a[1..], key, d) == front + WithKey(b[1..], key, d);
        assert (front + WithKey(a[1..], key, d))[|front|..] == WithKey(a[1..], key, d);
        assert (front + WithKey(b[1..], key, d))[|front|..] == WithKey(b[1..], key, d);
      }
      assert Sorted(a[1..], key) && Sorted(b[1..], key);
      StableSortUnique(a[1..], b[1..], key);
      assert a == [a[0]] + a[1..] && b == [b[0]] + b[1..];
    }
  }

  /** Sorting a sorted list changes nothing. */
  lemma SortIdempotent<T(!new)>(xs: seq<T>, key: T -> int)
    requires Sorted(xs, key)
    ensures Sort(xs, key) == xs
  {
    SortIsStable(xs, key);
    StableSortUnique(Sort(xs, key), xs, key);
  }

  /** Elements with one key stand in the class in the order they stand in the list. */
  lemma {:induction false} ClassPositions<T(!new)>(xs: seq<T>, key: T -> int, i: nat, j: nat)
    requires i < j < |xs| && key(xs[i]) == key(xs[j])
    ensures exists a, b :: 0 <= a < b < |WithKey(xs, key, key(xs[i]))|
                           && WithKey(xs, key, key(xs[i]))[a] == xs[i] && WithKey(xs, key, key(xs[i]))[b] == xs[j]
    decreases |xs|
  {
    var c := key(xs[i]);
    var same, rest := WithKey(xs, key, c), WithKey(xs[1..], key, c);
    if i > 0 {
      ClassPositions(xs[1..], key, i - 1, j - 1);
      var a, b :| 0 <= a < b < |rest| && rest[a] == xs[i] && rest[b] == xs[j];
      var d := |same| - |rest|;
      assert same[a + d] == xs[i] && same[b + d] == xs[j];
    } else {
      ClassHolds(xs[1..], key, j - 1);
      var b :| 0 <= b < |rest| && rest[b] == xs[j];
      assert same[0] == xs[i] && same[b + 1] == xs[j];
    }
  }

  lemma {:induction false} ClassHolds<T(!new)>(xs: seq<T>, key: T -> int, j: nat)
    requires j < |xs|
    ensures exists b :: 0 <= b < |WithKey(xs, key, key(xs[j]))| && WithKey(xs, key, key(xs[j]))[b] == xs[j]
    decreases |xs|
  {
    var c := key(xs[j]);
    var same, rest := WithKey(xs, key, c), WithKey(xs[1..], key, c);
    if j == 0 {
      assert same[0] == xs[0];
    } else {
      ClassHolds(xs[1..], key, j - 1);
      var b :| 0 <= b < |rest| && rest[b] == xs[j];
      assert same[b + |same| - |rest|] == xs[j];
    }
  }

  /** Two elements of a class stand in the list in the order they stand in the class.*/
  lemma {:induction false} ClassFromList<T(!new)>(xs: seq<T>, key: T -> int, c: int, a: nat, b: nat)
    requires a < b < |WithKey(xs, key, c)|
    ensures exists i, j :: 0 <= i < j < |xs| && xs[i] == WithKey(xs, key, c)[a] && xs[j] == WithKey(xs, key, c)[b]
    decreases |xs|
  {
    var same, rest := WithKey(xs, key, c), WithKey(xs[1..], key, c);
    var d := |same| - |rest|;
    if a >= d {
      ClassFromList(xs[1..], key, c, a - d, b - d);
      var i, j :| 0 <= i < j < |xs[1..]| && xs[1..][i] == rest[a - d] && xs[1..][j] == rest[b - d];
      assert xs[i + 1] == same[a] && xs[j + 1] == same[b];
    } else {
      ClassMember(xs[1..], key, c, b - 1);
      var j :| 0 <= j < |xs[1..]| && xs[1..][j] == rest[b - 1];
      assert xs[0] == same[a] && xs[j + 1] == same[b];
    }
  }

  lemma {:induction false} ClassMember<T(!new)>(xs: seq<T>, key: T -> int, c: int, b: nat)
    requires b < |WithKey(xs, key, c)|
    ensures exists j :: 0 <= j < |xs| && xs[j] == WithKey(xs, key, c)[b]
    decreases |xs|
  {
    var same, rest := WithKey(xs, key, c), WithKey(xs[1..], key, c);
    var d := |same| - |rest|;
    if b >= d {
      ClassMember(xs[1..], key, c, b - d);
      var j :| 0 <= j < |xs[1..]| && xs[1..][j] == rest[b - d];
      assert xs[j + 1] == same[b];
    } else {
      assert xs[0] == same[b];
    }
  }

  /** Elements of equal keys come out of a stable sorting in the order they went in. */
  lemma EqualKeysKeepOrder<T(!new)>(xs: seq<T>, ys: seq<T>, key: T -> int, i: nat, j: nat)
    requires StablySorted(xs, ys, key) && i < j < |ys| && key(ys[i]) == key(ys[j])
    ensures exists p, q :: 0 <= p < q < |xs| && xs[p] == ys[i] && xs[q] == ys[j]
  {
    var c := key(ys[i]);
    ClassPositions(ys, key, i, j);
    var same := WithKey(ys, key, c);
    var k, l :| 0 <= k < l < |same| && same[k] == ys[i] && same[l] == ys[j];
    assert WithKey(xs, key, c) == WithKey(ys, key, c);
    ClassFromList(xs, key, c, k, l);
  }
}
