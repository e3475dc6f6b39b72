// What a task that is split into chunks reports after every chunk has been
// run and the results have been concatenated in any order.
module SplitRuns {
  import opened Seqs

  function Map<C, R>(xs: seq<C>, f: C -> R): (r: seq<R>)
    ensures |r| == |xs| && forall i :: 0 <= i < |r| ==> r[i] == f(xs[i])
  {
    seq(|xs|, i requires 0 <= i < |xs| => f(xs[i]))
  }

  function MapEach<C, R>(xss: seq<seq<C>>, f: C -> R): (r: seq<seq<R>>)
    ensures |r| == |xss| && forall i :: 0 <= i < |r| ==> r[i] == Map(xss[i], f)
  {
    seq(|xss|, i requires 0 <= i < |xss| => Map(xss[i], f))
  }

  function Size<T>(xss: seq<seq<T>>): nat {
    if xss == [] then 0 else |xss[0]| + Size(xss[1..])
  }

  // ---------------------------------------------------------------- concatenation and order

  lemma {:induction false} FlattenSize<T>(xss: seq<seq<T>>)
    ensures |Flatten(xss)| == Size(xss)
  {
    if xss != [] {
      FlattenSize(xss[1..]);
    }
  }

  lemma {:induction false} FlattenMember<T>(xss: seq<seq<T>>, x: T)
    ensures x in Flatten(xss) <==> exists i :: 0 <= i < |xss| && x in xss[i]
  {
    if xss != [] {
      FlattenMember(xss[1..], x);
      if x in Flatten(xss[1..]) {
        var i :| 0 <= i < |xss[1..]| && x in xss[1..][i];
        assert x in xss[i + 1];
      }
      if i :| 0 < i < |xss| && x in xss[i] {
        assert x in xss[1..][i - 1];
      }
    }
  }

  lemma {:induction false} FlattenSame<T>(a: seq<seq<T>>, b: seq<seq<T>>)
    requires |a| == |b| && forall i :: 0 <= i < |a| ==> multiset(a[i]) == multiset(b[i])
    ensures multiset(Flatten(a)) == multiset(Flatten(b))
  {
    if a != [] {
      FlattenSame(a[1..], b[1..]);
    }
  }

  lemma {:induction false} FlattenWithout<T>(a: seq<seq<T>>, i: nat)
    requires i < |a|
    ensures multiset(Flatten(a)) == multiset(a[i]) + multiset(Flatten(a[..i] + a[i + 1..]))
  {
    var r := a[..i] + a[i + 1..];
    if i == 0 {
      assert r == a[1..];
    } else {
      FlattenWithout(a[1..], i - 1);
      assert r[1..] == a[1..][..i - 1] + a[1..][i..];
    }
  }

  /** The order in which results arrive does not change what they add up to. */
  lemma {:induction false} FlattenPermuted<T>(a: seq<seq<T>>, b: seq<seq<T>>)
    requires multiset(a) == multiset(b)
    ensures multiset(Flatten(a)) == multiset(Flatten(b))
    decreases |a|
  {
    if a == [] {
      assert |multiset(b)| == 0;
    } else {
      assert a == [a[0]] + a[1..];
      var i := RemoveOne(a[1..], a[0], b);
      FlattenPermuted(a[1..], b[..i] + b[i + 1..]);
      FlattenWithout(b, i);
    }
  }

  lemma {:induction false} MapFlatten<C, R>(xss: seq<seq<C>>, f: C -> R)
    ensures Flatten(MapEach(xss, f)) == Map(Flatten(xss), f)
  {
    if xss != [] {
      MapFlatten(xss[1..], f);
      assert MapEach(xss, f)[1..] == MapEach(xss[1..], f);
      assert Map(Flatten(xss), f) == Map(xss[0], f) + Map(Flatten(xss[1..]), f);
    }
  }

  lemma MapWithout<C, R>(b: seq<C>, i: nat, f: C -> R)
    requires i < |b|
    ensures multiset(Map(b, f)) == multiset{f(b[i])} + multiset(Map(b[..i] + b[i + 1..], f))
  {
    var m := Map(b, f);
    TakeOut(m, i);
    assert Map(b[..i] + b[i + 1..], f) == m[..i] + m[i + 1..];
  }

  lemma {:induction false} MapMultiset<C, R>(a: seq<C>, b: seq<C>, f: C -> R)
    requires multiset(a) == multiset(b)
    ensures multiset(Map(a, f)) == multiset(Map(b, f))
    decreases |a|
  {
    if a == [] {
      assert |multiset(b)| == 0;
      assert b == [];
    } else {
      assert a == [a[0]] + a[1..];
      var i := RemoveOne(a[1..], a[0], b);
      MapMultiset(a[1..], b[..i] + b[i + 1..], f);
      MapStep(a, b, i, f);
    }
  }

  lemma MapStep<C, R>(a: seq<C>, b: seq<C>, i: nat, f: C -> R)
    requires a != [] && i < |b| && a[0] == b[i]
    requires multiset(Map(a[1..], f)) == multiset(Map(b[..i] + b[i + 1..], f))
    ensures multiset(Map(a, f)) == multiset(Map(b, f))
  {
    MapFront(a, f);
    MapWithout(b, i, f);
  }

  lemma MapFront<C, R>(a: seq<C>, f: C -> R)
    requires a != []
    ensures multiset(Map(a, f)) == multiset{f(a[0])} + multiset(Map(a[1..], f))
  {
    assert Map(a, f) == [f(a[0])] + Map(a[1..], f);
  }

  // ---------------------------------------------------------------- chunks that are re-expanded

  /** chunks cut up the work; each is run as the work in expanded, which contains the chunk
      and stays within the whole. */
  ghost predicate Covering<C(!new)>(work: seq<C>, chunks: seq<seq<C>>, expanded: seq<seq<C>>) {
    && Flatten(chunks) == work
    && |expanded| == |chunks|
    && forall i :: 0 <= i < |chunks| ==>
         && (forall c :: c in chunks[i] ==> c in expanded[i])
         && (forall c :: c in expanded[i] ==> c in work)
  }

  /** ... and is the chunk itself when it is no larger. */
  ghost predicate Expansion<C(!new)>(work: seq<C>, chunks: seq<seq<C>>, expanded: seq<seq<C>>) {
    && Covering(work, chunks, expanded)
    && forall i :: 0 <= i < |chunks| ==>
         && |expanded[i]| >= |chunks[i]|
         && (|expanded[i]| == |chunks[i]| ==> multiset(expanded[i]) == multiset(chunks[i]))
  }

  /** arrival lists, in any order, results that are up to row order those of the runs. */
  ghost predicate Arrives<R(!new)>(arrival: seq<seq<R>>, runs: seq<seq<R>>) {
    exists results: seq<seq<R>> :: Results(arrival, results, runs)
  }

  ghost predicate Results<R>(arrival: seq<seq<R>>, results: seq<seq<R>>, runs: seq<seq<R>>) {
    && multiset(arrival) == multiset(results)
    && |results| == |runs|
    && forall i :: 0 <= i < |runs| ==> multiset(results[i]) == multiset(runs[i])
  }

  lemma ArrivalRows<R(!new)>(arrival: seq<seq<R>>, runs: seq<seq<R>>)
    requires Arrives(arrival, runs)
    ensures multiset(Flatten(arrival)) == multiset(Flatten(runs))
  {
    var results :| Results(arrival, results, runs);
    FlattenPermuted(arrival, results);
    FlattenSame(results, runs);
  }

  lemma {:induction false} SizesCompare<T>(a: seq<seq<T>>, b: seq<seq<T>>)
    requires |a| == |b| && forall i :: 0 <= i < |a| ==> |a[i]| >= |b[i]|
    ensures Size(a) >= Size(b)
    ensures Size(a) == Size(b) <==> forall i :: 0 <= i < |a| ==> |a[i]| == |b[i]|
  {
    if a != [] {
      SizesCompare(a[1..], b[1..]);
      if forall i :: 0 <= i < |a[1..]| ==> |a[1..][i]| == |b[1..][i]| {
        assert forall i :: 0 < i < |a| ==> |a[i]| == |a[1..][i - 1]| == |b[i]|;
      }
      if forall i :: 0 <= i < |a| ==> |a[i]| == |b[i]| {
        assert forall i :: 0 <= i < |a[1..]| ==> |a[1..][i]| == |a[i + 1]| == |b[i + 1]|;
      }
    }
  }

  /** The split run reports the same set of rows as the whole run. */
  lemma SplitRowSet<C(!new), R(!new)>(work: seq<C>, chunks: seq<seq<C>>, expanded: seq<seq<C>>, f: C -> R,
      arrival: seq<seq<R>>)
    requires Covering(work, chunks, expanded) && Arrives(arrival, MapEach(expanded, f))
    ensures forall x :: x in Flatten(arrival) <==> x in Map(work, f)
  {
    ArrivalRows(arrival, MapEach(expanded, f));
    MapFlatten(expanded, f);
    SameSet(work, chunks, expanded, f, arrival);
  }

  /** ... and the same rows with multiplicity exactly when no chunk grew when it was expanded. */
  lemma SplitRows<C(!new), R(!new)>(work: seq<C>, chunks: seq<seq<C>>, expanded: seq<seq<C>>, f: C -> R,
      arrival: seq<seq<R>>)
    requires Expansion(work, chunks, expanded) && Arrives(arrival, MapEach(expanded, f))
    ensures multiset(Flatten(arrival)) == multiset(Map(work, f)) <==>
      forall i :: 0 <= i < |chunks| ==> |expanded[i]| == |chunks[i]|
  {
    ArrivalRows(arrival, MapEach(expanded, f));
    MapFlatten(expanded, f);
    FlattenSize(expanded);
    FlattenSize(chunks);
    SizesCompare(expanded, chunks);
    assert |multiset(Map(work, f))| == |work| && |multiset(Flatten(arrival))| == |Flatten(expanded)|;
    if forall i :: 0 <= i < |chunks| ==> |expanded[i]| == |chunks[i]| {
      FlattenSame(expanded, chunks);
      MapMultiset(Flatten(expanded), work, f);
    }
  }

  lemma SameSet<C(!new), R(!new)>(work: seq<C>, chunks: seq<seq<C>>, expanded: seq<seq<C>>, f: C -> R,
      arrival: seq<seq<R>>)
    requires Covering(work, chunks, expanded)
    requires multiset(Flatten(arrival)) == multiset(Map(Flatten(expanded), f))
    ensures forall x :: x in Flatten(arrival) <==> x in Map(work, f)
  {
    var all := Flatten(expanded);
    forall c: C
      ensures c in all <==> c in work
    {
      FlattenMember(expanded, c);
      FlattenMember(chunks, c);
    }
    forall x: R
      ensures x in Flatten(arrival) <==> x in Map(work, f)
    {
      assert x in multiset(Flatten(arrival)) <==> x in multiset(Map(all, f));
      if x in Map(all, f) {
        var i :| 0 <= i < |all| && Map(all, f)[i] == x;
        assert all[i] in work;
        var j :| 0 <= j < |work| && work[j] == all[i];
        assert Map(work, f)[j] == x;
      }
      if x in Map(work, f) {
        var j :| 0 <= j < |work| && Map(work, f)[j] == x;
        assert work[j] in all;
        var i :| 0 <= i < |all| && all[i] == work[j];
        assert Map(all, f)[i] == x;
      }
    }
  }
}
