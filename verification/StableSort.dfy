/** Sorting by a key, elements of one key keeping their order. */
module StableSort {
  predicate SortedBy<T>(xs: seq<T>, key: T -> int) {
    forall i, j :: 0 <= i < j < |xs| ==> key(xs[i]) <= key(xs[j])
  }

  /** The elements of one key, in order. */
  function Select<T>(xs: seq<T>, key: T -> int, k: int): seq<T> {
    if xs == [] then [] else (if key(xs[0]) == k then [xs[0]] else []) + Select(xs[1..], key, k)
  }

  // Ahead of the elements of its own key.
  function Insert<T>(x: T, xs: seq<T>, key: T -> int): seq<T> {
    if xs == [] || key(x) <= key(xs[0]) then [x] + xs else [xs[0]] + Insert(x, xs[1..], key)
  }

  function Sort<T>(xs: seq<T>, key: T -> int): seq<T> {
    if xs == [] then [] else Insert(xs[0], Sort(xs[1..], key), key)
  }

  lemma {:induction false} InsertHolds<T>(x: T, xs: seq<T>, key: T -> int)
    ensures multiset(Insert(x, xs, key)) == multiset(xs) + multiset{x}
  {
    if xs != [] && key(x) > key(xs[0]) {
      InsertHolds(x, xs[1..], key);
      assert xs == [xs[0]] + xs[1..];
    }
  }

  lemma {:induction false} InsertSorts<T>(x: T, xs: seq<T>, key: T -> int)
    requires SortedBy(xs, key)
    ensures SortedBy(Insert(x, xs, key), key)
  {
    if xs != [] && key(x) > key(xs[0]) {
      var rest := Insert(x, xs[1..], key);
      InsertSorts(x, xs[1..], key);
      InsertHolds(x, xs[1..], key);
      forall y | y in rest ensures key(xs[0]) <= key(y) {
        assert y in multiset(rest);
        assert y == x || y in xs[1..];
      }
    }
  }

  lemma SelectCons<T>(x: T, xs: seq<T>, key: T -> int, k: int)
    ensures Select([x] + xs, key, k) == (if key(x) == k then [x] else []) + Select(xs, key, k)
  {
    assert ([x] + xs)[1..] == xs;
  }

  lemma {:induction false} InsertSelects<T>(x: T, xs: seq<T>, key: T -> int, k: int)
    ensures Select(Insert(x, xs, key), key, k) == (if key(x) == k then [x] else []) + Select(xs, key, k)
  {
    if xs == [] || key(x) <= key(xs[0]) {
      SelectCons(x, xs, key, k);
    } else {
      InsertSelects(x, xs[1..], key, k);
      SelectCons(xs[0], Insert(x, xs[1..], key), key, k);
      // An element is passed over only by one of a larger key.
      assert key(x) == k ==> key(xs[0]) != k;
    }
  }

  /** The result is sorted and holds the elements of every key in their order. */
  lemma {:induction false} SortLaws<T>(xs: seq<T>, key: T -> int)
    ensures SortedBy(Sort(xs, key), key)
    ensures multiset(Sort(xs, key)) == multiset(xs)
    ensures forall k :: Select(Sort(xs, key), key, k) == Select(xs, key, k)
  {
    if xs != [] {
      SortLaws(xs[1..], key);
      InsertHolds(xs[0], Sort(xs[1..], key), key);
      InsertSorts(xs[0], Sort(xs[1..], key), key);
      forall k ensures Select(Sort(xs, key), key, k) == Select(xs, key, k) {
        InsertSelects(xs[0], Sort(xs[1..], key), key, k);
      }
      assert xs == [xs[0]] + xs[1..];
    }
  }

  lemma {:induction false} SelectHolds<T>(xs: seq<T>, key: T -> int, i: nat)
    requires i < |xs|
    ensures Select(xs, key, key(xs[i])) != []
    ensures forall k, j :: 0 <= j < |Select(xs, key, k)| ==> Select(xs, key, k)[j] in xs && key(Select(xs, key, k)[j]) == k
  {
    if |xs| > 1 {
      SelectHolds(xs[1..], key, if i > 0 then i - 1 else 0);
    }
  }

  /** Those two laws leave one result only. */
  lemma {:induction false} SortedIsUnique<T>(a: seq<T>, b: seq<T>, key: T -> int)
    requires SortedBy(a, key) && SortedBy(b, key)
    requires forall k :: Select(a, key, k) == Select(b, key, k)
    ensures a == b
  {
    if a != [] {
      SelectHolds(a, key, 0);
      assert b != [];
      SelectHolds(b, key, 0);
      var ka, kb := key(a[0]), key(b[0]);
      assert Select(b, key, ka)[0] in b && Select(a, key, kb)[0] in a;
      assert ka == kb && a[0] == Select(a, key, ka)[0] == b[0];
      forall k ensures Select(a[1..], key, k) == Select(b[1..], key, k) {
        var head := if ka == k then [a[0]] else [];
        assert Select(a, key, k) == head + Select(a[1..], key, k);
        assert Select(b, key, k) == head + Select(b[1..], key, k);
        assert Select(a[1..], key, k) == (head + Select(a[1..], key, k))[|head|..];
      }
      SortedIsUnique(a[1..], b[1..], key);
    }
  }
}
