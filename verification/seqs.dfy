/** Mapping over sequences, and what it does to their multisets. */
module Seqs {

  /** `f` applied to every element, in order. */
  function MapSeq<A, B>(f: A -> B, s: seq<A>): (r: seq<B>)
    ensures |r| == |s|
    ensures forall i :: 0 <= i < |s| ==> r[i] == f(s[i])
  {
    if |s| == 0 then [] else [f(s[0])] + MapSeq(f, s[1..])
  }

  lemma {:induction false} MapAppend<A, B>(f: A -> B, a: seq<A>, b: seq<A>)
    ensures MapSeq(f, a + b) == MapSeq(f, a) + MapSeq(f, b)
    decreases |a|
  {
    if |a| == 0 {
      assert a + b == b;
    } else {
      assert (a + b)[1..] == a[1..] + b;
      MapAppend(f, a[1..], b);
    }
  }

  lemma MapCons<A, B>(f: A -> B, x: A, s: seq<A>)
    ensures MapSeq(f, [x] + s) == [f(x)] + MapSeq(f, s)
  {
    assert ([x] + s)[1..] == s;
  }

  /** Putting the same element in front of both sides keeps a multiset difference. */
  lemma ConsKeepsDifference<T>(x: T, s: seq<T>, r: seq<T>, y: T)
    requires multiset(s) == multiset(r) + multiset{y}
    ensures multiset([x] + s) == multiset([x] + r) + multiset{y}
  {
  }

  /** Removing a non-head element commutes with taking off the head. */
  lemma RemoveAfterHead<T>(b: seq<T>, j: nat)
    requires 0 < j < |b|
    ensures b[..j] + b[j + 1..] == [b[0]] + (b[1..][..j - 1] + b[1..][j..])
  {
  }

  /** Taking out the element at `j` takes its image out of the mapped sequence. */
  lemma {:induction false} RemoveAt<A, B>(f: A -> B, b: seq<A>, j: nat)
    requires j < |b|
    ensures multiset(MapSeq(f, b)) == multiset(MapSeq(f, b[..j] + b[j + 1..])) + multiset{f(b[j])}
    decreases j
  {
    var x, t := b[0], b[1..];
    assert b == [x] + t;
    MapCons(f, x, t);
    if j == 0 {
      assert b[..j] + b[j + 1..] == t;
    } else {
      var rest := t[..j - 1] + t[j..];
      RemoveAt(f, t, j - 1);
      RemoveAfterHead(b, j);
      MapCons(f, x, rest);
      ConsKeepsDifference(f(x), MapSeq(f, t), MapSeq(f, rest), f(b[j]));
    }
  }

  /** Taking out of `b` an occurrence of the head of `a` leaves what is left of `a`. */
  lemma MultisetRemove<A>(a: seq<A>, b: seq<A>, j: nat)
    requires multiset(a) == multiset(b) && |a| > 0 && j < |b| && b[j] == a[0]
    ensures multiset(b[..j] + b[j + 1..]) == multiset(a[1..])
  {
    var x := a[0];
    var rest := b[..j] + b[j + 1..];
    assert b == b[..j] + [x] + b[j + 1..];
    assert a == [x] + a[1..];
    assert multiset(b) == multiset(rest) + multiset{x};
    assert multiset(a) == multiset{x} + multiset(a[1..]);
    assert multiset(rest) + multiset{x} == multiset(a[1..]) + multiset{x};
    forall y ensures multiset(rest)[y] == multiset(a[1..])[y] {
      assert (multiset(rest) + multiset{x})[y] == multiset(rest)[y] + multiset{x}[y];
      assert (multiset(a[1..]) + multiset{x})[y] == multiset(a[1..])[y] + multiset{x}[y];
    }
  }

  /** Mapping a rearrangement gives a rearrangement of the images. */
  lemma {:induction false} MapPermutation<A, B>(f: A -> B, a: seq<A>, b: seq<A>)
    requires multiset(a) == multiset(b)
    ensures multiset(MapSeq(f, a)) == multiset(MapSeq(f, b))
    decreases |a|
  {
    if |a| == 0 {
      assert |b| == |multiset(b)| == 0;
    } else {
      var x := a[0];
      assert x in multiset(a);
      var j :| 0 <= j < |b| && b[j] == x;
      MultisetRemove(a, b, j);
      var rest := b[..j] + b[j + 1..];
      RemoveAt(f, b, j);
      MapPermutation(f, a[1..], rest);
      assert MapSeq(f, a) == [f(x)] + MapSeq(f, a[1..]);
    }
  }
}
