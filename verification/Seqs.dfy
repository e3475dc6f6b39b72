// Sequence functions shared by several modules.
module Seqs {

  function Flatten<T>(xss: seq<seq<T>>): seq<T> {
    if xss == [] then [] else xss[0] + Flatten(xss[1..])
  }

  function Join(parts: seq<string>, separator: string): string {
    if parts == [] then ""
    else if |parts| == 1 then parts[0]
    else parts[0] + separator + Join(parts[1..], separator)
  }

  lemma Assoc<T>(a: seq<T>, b: seq<T>, c: seq<T>)
    ensures a + b + c == a + (b + c)
  {
  }

  /** Taking out the element at place i. */
  lemma TakeOut<T>(b: seq<T>, i: nat)
    requires i < |b|
    ensures multiset(b) == multiset(b[..i] + b[i + 1..]) + multiset{b[i]}
  {
    assert b == b[..i] + ([b[i]] + b[i + 1..]);
  }

  /** An arrangement of x and the rest has x somewhere, and the rest around it. */
  lemma RemoveOne<T>(rest: seq<T>, x: T, b: seq<T>) returns (i: nat)
    requires multiset(b) == multiset(rest) + multiset{x}
    ensures i < |b| && b[i] == x && multiset(b[..i] + b[i + 1..]) == multiset(rest)
  {
    assert x in multiset(b);
    i :| 0 <= i < |b| && b[i] == x;
    TakeOut(b, i);
    SameRest(multiset(b[..i] + b[i + 1..]), multiset(rest), x);
  }

  lemma SameRest<T>(a: multiset<T>, b: multiset<T>, x: T)
    requires a + multiset{x} == b + multiset{x}
    ensures a == b
  {
    assert a == a + multiset{x} - multiset{x};
    assert b == b + multiset{x} - multiset{x};
  }

  /** No element occurs twice. */
  ghost predicate NoRepeats<T>(xs: seq<T>) {
    forall i, j :: 0 <= i < j < |xs| ==> xs[i] != xs[j]
  }

  lemma {:induction false} Multiplicity<T>(xs: seq<T>, x: T)
    requires NoRepeats(xs)
    ensures multiset(xs)[x] == if x in xs then 1 else 0
  {
    if xs != [] {
      Multiplicity(xs[1..], x);
      assert xs == [xs[0]] + xs[1..];
      assert multiset(xs) == multiset{xs[0]} + multiset(xs[1..]);
    }
  }

  /** Between lists without repetition. */
  lemma SubsetSizes<T(!new)>(a: seq<T>, b: seq<T>)
    requires NoRepeats(a) && NoRepeats(b) && forall x :: x in a ==> x in b
    ensures |a| <= |b|
    ensures |a| == |b| <==> forall x :: x in b ==> x in a
    ensures |a| == |b| ==> multiset(a) == multiset(b)
  {
    forall x: T
      ensures multiset(a)[x] <= multiset(b)[x]
      ensures multiset(a)[x] == (if x in a then 1 else 0)
      ensures multiset(b)[x] == (if x in b then 1 else 0)
    {
      Multiplicity(a, x);
      Multiplicity(b, x);
    }
    assert multiset(a) <= multiset(b);
    var rest := multiset(b) - multiset(a);
    assert multiset(b) == multiset(a) + rest;
    if |a| == |b| {
      assert |rest| == 0;
      forall x | x in b
        ensures x in a
      {
        assert x in multiset(b);
      }
    }
    if forall x :: x in b ==> x in a {
      assert multiset(a) == multiset(b);
    }
  }
}
