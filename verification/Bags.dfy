/** Sequences as bags: mapping every element to a sequence gives a bag that does not depend on the
    order of the elements. */
module Bags {

  ghost function FlatMap<T, U>(f: T -> seq<U>, s: seq<T>): seq<U> {
    if s == [] then [] else f(s[0]) + FlatMap(f, s[1..])
  }

  lemma {:induction false} FlatMapSplit<T, U>(f: T -> seq<U>, a: seq<T>, b: seq<T>)
    ensures FlatMap(f, a + b) == FlatMap(f, a) + FlatMap(f, b)
  {
    if a == [] {
      assert a + b == b;
    } else {
      assert (a + b)[1..] == a[1..] + b;
      FlatMapSplit(f, a[1..], b);
    }
  }

  lemma {:induction false} TakeOut<T>(s: seq<T>, k: nat)
    requires k < |s|
    ensures multiset(s[..k] + s[k + 1..]) == multiset(s) - multiset{s[k]}
  {
    assert s == s[..k] + [s[k]] + s[k + 1..];
  }

  /** Where the first element of a sequence is in a permutation of it. */
  lemma {:induction false} FirstIn<T>(s: seq<T>, t: seq<T>) returns (k: nat)
    requires multiset(s) == multiset(t) && s != []
    ensures k < |t| && t[k] == s[0] && multiset(s[..0] + s[1..]) == multiset(t[..k] + t[k + 1..])
  {
    assert s[0] in multiset(t);
    k :| 0 <= k < |t| && t[k] == s[0];
    TakeOut(s, 0);
    TakeOut(t, k);
  }

  lemma {:induction false} FlatMapTakeOut<T, U>(f: T -> seq<U>, s: seq<T>, k: nat)
    requires k < |s|
    ensures multiset(FlatMap(f, s)) == multiset(f(s[k])) + multiset(FlatMap(f, s[..k] + s[k + 1..]))
  {
    var a, b := s[..k], s[k + 1..];
    FlatMapSplit(f, a, [s[k]] + b);
    FlatMapSplit(f, a, b);
    assert s == a + ([s[k]] + b) && ([s[k]] + b)[1..] == b;
  }

  /** The order of the rows does not matter to the bag. */
  lemma {:induction false} FlatMapPermute<T, U>(f: T -> seq<U>, s: seq<T>, t: seq<T>)
    requires multiset(s) == multiset(t)
    ensures multiset(FlatMap(f, s)) == multiset(FlatMap(f, t))
    decreases |s|
  {
    if s == [] {
      assert t == [] by { assert |multiset(t)| == 0; }
    } else {
      var k := FirstIn(s, t);
      FlatMapPermute(f, s[..0] + s[1..], t[..k] + t[k + 1..]);
      FlatMapTakeOut(f, s, 0);
      FlatMapTakeOut(f, t, k);
    }
  }

  lemma {:induction false} FlatMapSame<T(!new), U>(f: T -> seq<U>, g: T -> seq<U>, s: seq<T>)
    requires forall x :: multiset(f(x)) == multiset(g(x))
    ensures multiset(FlatMap(f, s)) == multiset(FlatMap(g, s))
  {
    if s != [] { FlatMapSame(f, g, s[1..]); }
  }
}
