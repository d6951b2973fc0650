/** lodash's `_.orderBy(collection, iteratee, "desc")` for one iteratee: a
    stable sort on an integer key, largest key first, ties kept in input
    order. Modelled as an insertion sort on sequences. */
module OrderBy {

  /** Non-increasing in `key`. */
  predicate SortedDesc<T>(s: seq<T>, key: T -> int) {
    forall i, j :: 0 <= i < j < |s| ==> key(s[i]) >= key(s[j])
  }

  /** The elements of `s` whose key is `k`, in their order in `s`. */
  function WithKey<T>(s: seq<T>, key: T -> int, k: int): (r: seq<T>)
    ensures |r| <= |s|
    ensures forall i :: 0 <= i < |r| ==> key(r[i]) == k
    decreases |s|
  {
    if |s| == 0 then []
    else (if key(s[0]) == k then [s[0]] else []) + WithKey(s[1..], key, k)
  }

  /** Stability: for every key, the elements carrying it appear in the same
      relative order in `out` as in `input`. */
  ghost predicate KeepsTieOrder<T>(input: seq<T>, out: seq<T>, key: T -> int) {
    forall k :: WithKey(out, key, k) == WithKey(input, key, k)
  }

  /** Puts `x` in front of the first element whose key is not larger. */
  function Insert<T>(x: T, s: seq<T>, key: T -> int): (r: seq<T>)
    requires SortedDesc(s, key)
    ensures SortedDesc(r, key)
    ensures multiset(r) == multiset(s) + multiset{x}
    ensures |r| == |s| + 1
    decreases |s|
  {
    if |s| == 0 || key(x) >= key(s[0]) then [x] + s
    else
      var t := Insert(x, s[1..], key);
      assert multiset(s) == multiset{s[0]} + multiset(s[1..]) by {
        assert s == [s[0]] + s[1..];
      }
      assert forall i :: 0 <= i < |t| ==> key(t[i]) <= key(s[0]) by {
        forall i | 0 <= i < |t|
          ensures key(t[i]) <= key(s[0])
        {
          assert t[i] in multiset(t);
          if t[i] != x {
            assert t[i] in multiset(s[1..]);
            var j :| 0 <= j < |s[1..]| && s[1..][j] == t[i];
            assert s[j + 1] == t[i];
          }
        }
      }
      [s[0]] + t
  }

  /** `_.orderBy(xs, key, "desc")`. */
  function OrderByDesc<T>(xs: seq<T>, key: T -> int): (r: seq<T>)
    ensures |r| == |xs|
    ensures multiset(r) == multiset(xs)
    ensures SortedDesc(r, key)
    decreases |xs|
  {
    if |xs| == 0 then []
    else
      assert xs == [xs[0]] + xs[1..];
      Insert(xs[0], OrderByDesc(xs[1..], key), key)
  }

  lemma {:induction false} WithKeyAppend<T>(a: seq<T>, b: seq<T>, key: T -> int, k: int)
    ensures WithKey(a + b, key, k) == WithKey(a, key, k) + WithKey(b, key, k)
    decreases |a|
  {
    if |a| == 0 {
      assert a + b == b;
    } else {
      assert (a + b)[0] == a[0];
      assert (a + b)[1..] == a[1..] + b;
      WithKeyAppend(a[1..], b, key, k);
    }
  }

  /** No element of `s` has key `k`. */
  lemma {:induction false} WithKeyNone<T>(s: seq<T>, key: T -> int, k: int)
    requires forall i :: 0 <= i < |s| ==> key(s[i]) != k
    ensures WithKey(s, key, k) == []
    decreases |s|
  {
    if |s| > 0 {
      WithKeyNone(s[1..], key, k);
    }
  }

  /** The head of a non-empty sequence is the first element with its key. */
  lemma WithKeyHead<T>(s: seq<T>, key: T -> int)
    ensures |s| == 0 ==> forall k :: WithKey(s, key, k) == []
    ensures |s| > 0 ==> |WithKey(s, key, key(s[0]))| > 0 && WithKey(s, key, key(s[0]))[0] == s[0]
  {
  }

  /** Inserting `x` puts it before every element with the same key. */
  lemma WithKeyCons<T>(h: T, t: seq<T>, key: T -> int, k: int)
    ensures WithKey([h] + t, key, k) == (if key(h) == k then [h] else []) + WithKey(t, key, k)
  {
    assert ([h] + t)[0] == h;
    assert ([h] + t)[1..] == t;
  }

  lemma {:induction false} WithKeyInsert<T>(x: T, s: seq<T>, key: T -> int, k: int)
    requires SortedDesc(s, key)
    ensures WithKey(Insert(x, s, key), key, k)
            == (if key(x) == k then [x] else []) + WithKey(s, key, k)
    decreases |s|
  {
    if |s| == 0 || key(x) >= key(s[0]) {
      assert Insert(x, s, key) == [x] + s;
      WithKeyCons(x, s, key, k);
    } else {
      var h, t := s[0], s[1..];
      var rest := Insert(x, t, key);
      assert Insert(x, s, key) == [h] + rest;
      WithKeyCons(h, rest, key, k);
      WithKeyInsert(x, t, key, k);
      assert s == [h] + t;
      WithKeyCons(h, t, key, k);
    }
  }

  /** `_.orderBy` is stable. */
  lemma {:induction false} OrderByDescStable<T>(xs: seq<T>, key: T -> int)
    ensures KeepsTieOrder(xs, OrderByDesc(xs, key), key)
    decreases |xs|
  {
    if |xs| > 0 {
      forall k
        ensures WithKey(OrderByDesc(xs, key), key, k) == WithKey(xs, key, k)
      {
        OrderByDescStable(xs[1..], key);
        WithKeyInsert(xs[0], OrderByDesc(xs[1..], key), key, k);
        WithKeyAppend([xs[0]], xs[1..], key, k);
        assert [xs[0]][1..] == [];
        assert xs == [xs[0]] + xs[1..];
      }
    }
  }

  /** Two sorted sequences that agree on the order of each key's elements
      are equal. */
  lemma {:induction false} SortedWithSameTiesEqual<T>(a: seq<T>, b: seq<T>, key: T -> int)
    requires SortedDesc(a, key) && SortedDesc(b, key)
    requires KeepsTieOrder(a, b, key)
    ensures a == b
    decreases |a|
  {
    if |a| == 0 || |b| == 0 {
      // the head of the non-empty one would be missing from its key's
      // elements in the empty one
      if |a| != |b| {
        WithKeyHead(a, key);
        WithKeyHead(b, key);
        assert false;
      }
    } else {
      var ka, kb := key(a[0]), key(b[0]);
      assert WithKey(b, key, kb)[0] == b[0];
      if kb > ka {
        WithKeyNone(a, key, kb);
      }
      assert WithKey(a, key, ka)[0] == a[0];
      if ka > kb {
        WithKeyNone(b, key, ka);
      }
      assert a[0] == b[0] by {
        assert WithKey(a, key, ka)[0] == WithKey(b, key, ka)[0];
      }
      forall k
        ensures WithKey(b[1..], key, k) == WithKey(a[1..], key, k)
      {
        var p := if key(a[0]) == k then [a[0]] else [];
        assert WithKey(a, key, k) == p + WithKey(a[1..], key, k);
        assert WithKey(b, key, k) == p + WithKey(b[1..], key, k);
        assert WithKey(a[1..], key, k) == WithKey(a, key, k)[|p|..];
        assert WithKey(b[1..], key, k) == WithKey(b, key, k)[|p|..];
      }
      SortedWithSameTiesEqual(a[1..], b[1..], key);
      assert a == [a[0]] + a[1..] && b == [b[0]] + b[1..];
    }
  }

  /** `_.orderBy` is the only sorted, stable arrangement of its input: any
      sorted sequence that keeps the tie order of `xs` is its result. */
  lemma OrderByDescUnique<T>(xs: seq<T>, out: seq<T>, key: T -> int)
    requires SortedDesc(out, key)
    requires KeepsTieOrder(xs, out, key)
    ensures out == OrderByDesc(xs, key)
  {
    OrderByDescStable(xs, key);
    SortedWithSameTiesEqual(OrderByDesc(xs, key), out, key);
  }
}
