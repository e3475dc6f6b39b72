// The query cache of the storage service: least-recently-used eviction by entry
// count, expiry by age, hit and miss counters.
module QueryCache {
  import opened Protocol

  datatype Entry<V> = Entry(key: string, value: V, stamp: real)

  /** Entries in recency order, the least recently used first. */
  datatype State<V> = State(entries: seq<Entry<V>>, hits: nat, misses: nat)

  datatype Op<V> =
    | Get(key: string, now: real)
    | Put(key: string, value: V, now: real)
    | Invalidate(key: string)
    | Clear

  function Keys<V>(entries: seq<Entry<V>>): set<string> {
    set i | 0 <= i < |entries| :: entries[i].key
  }

  ghost predicate DistinctKeys<V>(entries: seq<Entry<V>>) {
    forall i, j :: 0 <= i < j < |entries| ==> entries[i].key != entries[j].key
  }

  function Find<V>(entries: seq<Entry<V>>, key: string): Option<Entry<V>> {
    if entries == [] then None
    else if entries[0].key == key then Some(entries[0])
    else Find(entries[1..], key)
  }

  function Without<V>(entries: seq<Entry<V>>, key: string): seq<Entry<V>> {
    if entries == [] then []
    else if entries[0].key == key then Without(entries[1..], key)
    else [entries[0]] + Without(entries[1..], key)
  }

  /** The entries whose keys belong to keys, in the same order. */
  function Restrict<V>(entries: seq<Entry<V>>, keys: set<string>): seq<Entry<V>> {
    if entries == [] then []
    else if entries[0].key in keys then [entries[0]] + Restrict(entries[1..], keys)
    else Restrict(entries[1..], keys)
  }

  predicate Expired<V>(e: Entry<V>, ttl: int, now: real) {
    ttl > 0 && now - e.stamp > ttl as real
  }

  /** The most recent max entries. */
  function Newest<V>(entries: seq<Entry<V>>, max: nat): seq<Entry<V>> {
    if |entries| <= max then entries else entries[|entries| - max..]
  }

  /** One operation on a cache of the given capacity; the answer is that of a Get. */
  function Step<V>(capacity: nat, ttl: int, s: State<V>, op: Op<V>): (State<V>, Option<V>) {
    match op
    case Get(key, now) =>
      (match Find(s.entries, key)
       case None => (s.(misses := s.misses + 1), None)
       case Some(e) =>
         if Expired(e, ttl, now) then
           (State(Without(s.entries, key), s.hits, s.misses + 1), None)
         else
           (State(Without(s.entries, key) + [e], s.hits + 1, s.misses), Some(e.value)))
    case Put(key, value, now) =>
      (s.(entries := Newest(Without(s.entries, key) + [Entry(key, value, now)], capacity)), None)
    case Invalidate(key) => (s.(entries := Without(s.entries, key)), None)
    case Clear => (State([], 0, 0), None)
  }

  function Run<V>(capacity: nat, ttl: int, s: State<V>, ops: seq<Op<V>>): State<V>
    decreases ops
  {
    if ops == [] then s else Run(capacity, ttl, Step(capacity, ttl, s, ops[0]).0, ops[1..])
  }

  function Answers<V>(capacity: nat, ttl: int, s: State<V>, ops: seq<Op<V>>): (r: seq<Option<V>>)
    ensures |r| == |ops|
    decreases ops
  {
    if ops == [] then []
    else [Step(capacity, ttl, s, ops[0]).1] + Answers(capacity, ttl, Step(capacity, ttl, s, ops[0]).0, ops[1..])
  }

  // ---------------------------------------------------------------- facts about entry lists

  lemma {:induction false} FindFacts<V>(entries: seq<Entry<V>>, key: string)
    ensures Find(entries, key) == None <==> key !in Keys(entries)
    ensures Find(entries, key).Some? ==> Find(entries, key).value.key == key
  {
    if entries != [] {
      FindFacts(entries[1..], key);
      assert Keys(entries) == {entries[0].key} + Keys(entries[1..]) by {
        assert entries == [entries[0]] + entries[1..];
      }
    }
  }

  lemma KeysConcat<V>(a: seq<Entry<V>>, b: seq<Entry<V>>)
    ensures Keys(a + b) == Keys(a) + Keys(b)
  {
    forall k | k in Keys(a) + Keys(b)
      ensures k in Keys(a + b)
    {
      if k in Keys(a) {
        var i :| 0 <= i < |a| && a[i].key == k;
        assert (a + b)[i].key == k;
      } else {
        var i :| 0 <= i < |b| && b[i].key == k;
        assert (a + b)[|a| + i].key == k;
      }
    }
  }

  lemma {:induction false} WithoutFacts<V>(entries: seq<Entry<V>>, key: string)
    requires DistinctKeys(entries)
    ensures DistinctKeys(Without(entries, key))
    ensures Keys(Without(entries, key)) == Keys(entries) - {key}
    ensures |Without(entries, key)| == |entries| - (if key in Keys(entries) then 1 else 0)
  {
    if entries != [] {
      WithoutFacts(entries[1..], key);
      KeysConcat([entries[0]], entries[1..]);
      assert entries == [entries[0]] + entries[1..];
      assert Keys([entries[0]]) == {entries[0].key};
      assert entries[0].key !in Keys(entries[1..]);
      var rest := Without(entries[1..], key);
      KeysConcat([entries[0]], rest);
      forall i | 0 <= i < |rest|
        ensures rest[i].key != entries[0].key
      {
        assert rest[i].key in Keys(rest);
      }
    }
  }

  lemma {:induction false} RestrictConcat<V>(a: seq<Entry<V>>, b: seq<Entry<V>>, keys: set<string>)
    ensures Restrict(a + b, keys) == Restrict(a, keys) + Restrict(b, keys)
  {
    if a == [] {
      assert a + b == b;
    } else {
      assert (a + b)[1..] == a[1..] + b;
      RestrictConcat(a[1..], b, keys);
    }
  }

  lemma {:induction false} RestrictWithout<V>(entries: seq<Entry<V>>, keys: set<string>, key: string)
    ensures Restrict(Without(entries, key), keys - {key}) == Without(Restrict(entries, keys), key)
    ensures Restrict(Without(entries, key), keys) == Without(Restrict(entries, keys), key)
  {
    if entries != [] {
      RestrictWithout(entries[1..], keys, key);
      var rest := Restrict(entries[1..], keys);
      if entries[0].key in keys {
        assert ([entries[0]] + rest)[1..] == rest;
      }
      if entries[0].key != key {
        var w := Without(entries[1..], key);
        assert ([entries[0]] + w)[1..] == w;
      }
    }
  }

  lemma {:induction false} FindRestrict<V>(entries: seq<Entry<V>>, keys: set<string>, key: string)
    ensures Find(Restrict(entries, keys), key) == if key in keys then Find(entries, key) else None
  {
    if entries != [] {
      FindRestrict(entries[1..], keys, key);
      assert ([entries[0]] + Restrict(entries[1..], keys))[1..] == Restrict(entries[1..], keys);
    }
  }

  lemma {:induction false} RestrictSame<V>(entries: seq<Entry<V>>, keys: set<string>, keys': set<string>)
    requires keys * Keys(entries) == keys' * Keys(entries)
    ensures Restrict(entries, keys) == Restrict(entries, keys')
  {
    if entries != [] {
      KeysConcat([entries[0]], entries[1..]);
      assert entries == [entries[0]] + entries[1..];
      assert entries[0].key in Keys([entries[0]]);
      forall k | k in Keys(entries[1..])
        ensures k in keys <==> k in keys'
      {
        assert k in Keys(entries);
        assert k in keys * Keys(entries) <==> k in keys' * Keys(entries);
      }
      assert entries[0].key in keys * Keys(entries) <==> entries[0].key in keys' * Keys(entries);
      RestrictSame(entries[1..], keys, keys');
    }
  }

  lemma {:induction false} RestrictKeys<V>(entries: seq<Entry<V>>, keys: set<string>)
    ensures Keys(Restrict(entries, keys)) == Keys(entries) * keys
    ensures |Restrict(entries, keys)| <= |entries|
  {
    if entries != [] {
      RestrictKeys(entries[1..], keys);
      KeysConcat([entries[0]], entries[1..]);
      assert entries == [entries[0]] + entries[1..];
      assert Keys([entries[0]]) == {entries[0].key};
      KeysConcat([entries[0]], Restrict(entries[1..], keys));
      if entries[0].key in keys {
        assert Restrict(entries, keys) == [entries[0]] + Restrict(entries[1..], keys);
      }
    }
  }

  // ---------------------------------------------------------------- the inclusion property

  /** The smaller cache holds an order-preserving part of what the larger one holds, is ahead
      by no more entries than the capacities differ, and has hit no more often. */
  ghost predicate Included<V>(small: State<V>, large: State<V>, m: nat, M: nat) {
    && DistinctKeys(large.entries)
    && DistinctKeys(small.entries)
    && small.entries == Restrict(large.entries, Keys(small.entries))
    && |small.entries| <= m && |large.entries| <= M
    && |large.entries| - |small.entries| <= M - m
    && small.hits <= large.hits
    && small.hits + small.misses == large.hits + large.misses
  }

  /** Moving or renewing an entry at the recent end, or dropping it, on both sides. */
  lemma RestrictedMove<V>(small: seq<Entry<V>>, large: seq<Entry<V>>, key: string, last: seq<Entry<V>>)
    requires DistinctKeys(small) && DistinctKeys(large)
    requires small == Restrict(large, Keys(small))
    requires forall i :: 0 <= i < |last| ==> last[i].key == key
    requires |last| <= 1
    ensures var s, l := Without(small, key) + last, Without(large, key) + last;
            DistinctKeys(s) && DistinctKeys(l) && s == Restrict(l, Keys(s))
  {
    WithoutFacts(small, key);
    WithoutFacts(large, key);
    var s, l := Without(small, key) + last, Without(large, key) + last;
    KeysConcat(Without(small, key), last);
    forall i | 0 <= i < |Without(small, key)|
      ensures Without(small, key)[i].key != key
    {
      assert Without(small, key)[i].key in Keys(Without(small, key));
    }
    forall i | 0 <= i < |Without(large, key)|
      ensures Without(large, key)[i].key != key
    {
      assert Without(large, key)[i].key in Keys(Without(large, key));
    }
    RestrictWithout(large, Keys(small), key);
    RestrictConcat(Without(large, key), last, Keys(s));
    RestrictSame(Without(large, key), Keys(s), Keys(small) - {key});
    if |last| == 1 {
      assert last[0].key in Keys(last);
      assert Restrict(last, Keys(s)) == last;
    }
  }

  /** Dropping from the old end keeps the inclusion, provided the larger cache drops only
      when the smaller one is over-full too. */
  lemma RestrictedTrim<V>(small: seq<Entry<V>>, large: seq<Entry<V>>, m: nat, M: nat)
    requires DistinctKeys(small) && DistinctKeys(large) && m <= M
    requires small == Restrict(large, Keys(small))
    requires |small| <= m + 1 && |large| <= M + 1 && |large| - |small| <= M - m
    ensures var s, l := Newest(small, m), Newest(large, M);
            && DistinctKeys(s) && DistinctKeys(l) && s == Restrict(l, Keys(s))
            && |s| <= m && |l| <= M && |l| - |s| <= M - m
  {
    var s, l := Newest(small, m), Newest(large, M);
    if |small| == m + 1 {
      assert s == small[1..];
      DropFirstOfSmall(small, large);
      if |large| == M + 1 {
        assert l == large[1..];
        RestrictKeys(large[1..], Keys(s));
        if large[0].key in Keys(small) {
          assert small[0] == large[0];
        }
        assert large[0].key !in Keys(s);
      }
    }
  }

  lemma DropFirstOfSmall<V>(small: seq<Entry<V>>, large: seq<Entry<V>>)
    requires DistinctKeys(small) && DistinctKeys(large) && small != []
    requires small == Restrict(large, Keys(small))
    ensures small[1..] == Restrict(large, Keys(small[1..]))
  {
    var first := small[0].key;
    WithoutFacts(small, first);
    WithoutIsTail(small);
    RestrictWithout(large, Keys(small), first);
    WithoutFacts(large, first);
    assert Keys(small[1..]) == Keys(small) - {first};
    assert small[1..] == Restrict(Without(large, first), Keys(small[1..]));
    RestrictSkips(large, first, Keys(small[1..]));
  }

  lemma {:induction false} WithoutIsTail<V>(entries: seq<Entry<V>>)
    requires DistinctKeys(entries) && entries != []
    ensures Without(entries, entries[0].key) == entries[1..]
  {
    AbsentIsKept(entries[1..], entries[0].key);
  }

  lemma {:induction false} AbsentIsKept<V>(entries: seq<Entry<V>>, key: string)
    requires forall i :: 0 <= i < |entries| ==> entries[i].key != key
    ensures Without(entries, key) == entries
  {
    if entries != [] {
      AbsentIsKept(entries[1..], key);
    }
  }

  lemma {:induction false} RestrictSkips<V>(entries: seq<Entry<V>>, key: string, keys: set<string>)
    requires key !in keys
    ensures Restrict(Without(entries, key), keys) == Restrict(entries, keys)
  {
    if entries != [] {
      RestrictSkips(entries[1..], key, keys);
      var w := Without(entries[1..], key);
      assert ([entries[0]] + w)[1..] == w;
    }
  }

  lemma InclusionStep<V>(m: nat, M: nat, ttl: int, small: State<V>, large: State<V>, op: Op<V>)
    requires m <= M && Included(small, large, m, M)
    ensures Included(Step(m, ttl, small, op).0, Step(M, ttl, large, op).0, m, M)
    ensures Step(m, ttl, small, op).1.Some? ==> Step(M, ttl, large, op).1 == Step(m, ttl, small, op).1
  {
    match op
    case Clear =>
    case Invalidate(key) =>
      EitherSideWithout(small, large, key, m, M);
    case Get(key, now) =>
      FindRestrict(large.entries, Keys(small.entries), key);
      FindFacts(small.entries, key);
      FindFacts(large.entries, key);
      EitherSideWithout(small, large, key, m, M);
      WithoutFacts(small.entries, key);
      WithoutFacts(large.entries, key);
      match Find(large.entries, key) {
        case None =>
        case Some(e) =>
          if !Expired(e, ttl, now) {
            RestrictedMove(small.entries, large.entries, key, [e]);
            if key !in Keys(small.entries) {
              AbsentIsKept(small.entries, key);
              var l := Without(large.entries, key) + [e];
              RestrictConcat(Without(large.entries, key), [e], Keys(small.entries));
              WithoutFacts(large.entries, key);
            }
          }
      }
    case Put(key, value, now) =>
      var last := [Entry(key, value, now)];
      RestrictedMove(small.entries, large.entries, key, last);
      WithoutFacts(small.entries, key);
      WithoutFacts(large.entries, key);
      RestrictKeys(large.entries, Keys(small.entries));
      RestrictedTrim(Without(small.entries, key) + last, Without(large.entries, key) + last, m, M);
  }

  lemma EitherSideWithout<V>(small: State<V>, large: State<V>, key: string, m: nat, M: nat)
    requires m <= M && Included(small, large, m, M)
    ensures Included(small.(entries := Without(small.entries, key)),
                     large.(entries := Without(large.entries, key)), m, M)
    ensures key !in Keys(small.entries) ==>
      Without(small.entries, key) == small.entries
  {
    RestrictedMove(small.entries, large.entries, key, []);
    assert Without(small.entries, key) + [] == Without(small.entries, key);
    assert Without(large.entries, key) + [] == Without(large.entries, key);
    WithoutFacts(small.entries, key);
    WithoutFacts(large.entries, key);
    RestrictKeys(large.entries, Keys(small.entries));
    if key !in Keys(small.entries) {
      forall i | 0 <= i < |small.entries|
        ensures small.entries[i].key != key
      {
        assert small.entries[i].key in Keys(small.entries);
      }
      AbsentIsKept(small.entries, key);
    }
  }

  /** On any common trace a smaller cache never holds, hits or answers anything that a larger
      one does not. */
  lemma {:induction false} LruInclusion<V>(m: nat, M: nat, ttl: int, small: State<V>, large: State<V>, ops: seq<Op<V>>)
    requires m <= M && Included(small, large, m, M)
    ensures Included(Run(m, ttl, small, ops), Run(M, ttl, large, ops), m, M)
    ensures forall i :: 0 <= i < |ops| && Answers(m, ttl, small, ops)[i].Some? ==>
      Answers(M, ttl, large, ops)[i] == Answers(m, ttl, small, ops)[i]
    decreases ops
  {
    if ops != [] {
      InclusionStep(m, M, ttl, small, large, ops[0]);
      LruInclusion(m, M, ttl, Step(m, ttl, small, ops[0]).0, Step(M, ttl, large, ops[0]).0, ops[1..]);
    }
  }

  /** From two new caches: after any common trace the smaller cache holds a part of what the larger
      one holds, in the same order of recency, has hit no more often on as many requests, and every
      value it found the larger one found too. */
  lemma InclusionFromNew<V>(m: nat, M: nat, ttl: int, ops: seq<Op<V>>, i: nat)
    requires m <= M && i < |ops|
    ensures var small, large := Run(m, ttl, State([], 0, 0), ops), Run(M, ttl, State([], 0, 0), ops);
            && small.entries == Restrict(large.entries, Keys(small.entries))
            && |small.entries| <= m && |large.entries| <= M
            && small.hits <= large.hits && small.hits + small.misses == large.hits + large.misses
    ensures Answers(m, ttl, State([], 0, 0), ops)[i].Some? ==>
      Answers(M, ttl, State([], 0, 0), ops)[i] == Answers(m, ttl, State([], 0, 0), ops)[i]
  {
    LruInclusion(m, M, ttl, State([], 0, 0), State([], 0, 0), ops);
  }

  // ---------------------------------------------------------------- what an answer says

  /** The value that the operations last stored under the key and when, unless they dropped it since. */
  function LastPut<V>(ops: seq<Op<V>>, key: string): Option<(V, real)> {
    if ops == [] then None
    else
      var rest := ops[..|ops| - 1];
      match ops[|ops| - 1]
      case Put(k, value, now) => if k == key then Some((value, now)) else LastPut(rest, key)
      case Invalidate(k) => if k == key then None else LastPut(rest, key)
      case Clear => None
      case Get(_, _) => LastPut(rest, key)
  }

  /** Every entry is what was last stored under its key. */
  ghost predicate Current<V>(entries: seq<Entry<V>>, ops: seq<Op<V>>) {
    forall e :: e in entries ==> LastPut(ops, e.key) == Some((e.value, e.stamp))
  }

  lemma {:induction false} WithoutMember<V>(entries: seq<Entry<V>>, key: string, e: Entry<V>)
    ensures e in Without(entries, key) <==> e in entries && e.key != key
  {
    if entries != [] {
      WithoutMember(entries[1..], key, e);
    }
  }

  lemma {:induction false} FindMember<V>(entries: seq<Entry<V>>, key: string)
    ensures match Find(entries, key)
            case None => forall e :: e in entries ==> e.key != key
            case Some(e) => e in entries && e.key == key
  {
    if entries != [] {
      FindMember(entries[1..], key);
    }
  }

  lemma StepCurrent<V>(capacity: nat, ttl: int, s: State<V>, ops: seq<Op<V>>, op: Op<V>)
    requires Current(s.entries, ops)
    ensures Current(Step(capacity, ttl, s, op).0.entries, ops + [op])
  {
    assert (ops + [op])[..|ops|] == ops;
    forall e | e in Step(capacity, ttl, s, op).0.entries
      ensures LastPut(ops + [op], e.key) == Some((e.value, e.stamp))
    {
      if op.Get? || op.Put? || op.Invalidate? {
        WithoutMember(s.entries, op.key, e);
        FindMember(s.entries, op.key);
      }
    }
  }

  lemma {:induction false} RunCurrent<V>(capacity: nat, ttl: int, s: State<V>, before: seq<Op<V>>, ops: seq<Op<V>>)
    requires Current(s.entries, before)
    ensures Current(Run(capacity, ttl, s, ops).entries, before + ops)
    decreases ops
  {
    if ops == [] {
      assert before + ops == before;
    } else {
      StepCurrent(capacity, ttl, s, before, ops[0]);
      RunCurrent(capacity, ttl, Step(capacity, ttl, s, ops[0]).0, before + [ops[0]], ops[1..]);
      assert before + [ops[0]] + ops[1..] == before + ops;
    }
  }

  /** A request is answered with a value only if that is what was last stored under its key, not dropped
      since and no older than the time to live, if there is one: whatever the capacity and the clock. */
  lemma AnswersAreCurrent<V>(capacity: nat, ttl: int, ops: seq<Op<V>>, key: string, now: real)
    ensures var s := Run(capacity, ttl, State([], 0, 0), ops);
            match Step(capacity, ttl, s, Get(key, now)).1
            case None => true
            case Some(value) =>
              match LastPut(ops, key)
              case None => false
              case Some((stored, stamp)) => value == stored && (ttl <= 0 || now - stamp <= ttl as real)
  {
    RunCurrent(capacity, ttl, State([], 0, 0), [], ops);
    assert [] + ops == ops;
    FindMember(Run(capacity, ttl, State([], 0, 0), ops).entries, key);
  }

  predicate Alive(stamp: real, ttl: int, now: real) {
    ttl <= 0 || now - stamp <= ttl as real
  }

  /** What was stored and is alive at the present time is held. */
  ghost predicate Holds<V>(entries: seq<Entry<V>>, ops: seq<Op<V>>, ttl: int, now: real) {
    forall key :: LastPut(ops, key).Some? && Alive(LastPut(ops, key).value.1, ttl, now) ==>
      Entry(key, LastPut(ops, key).value.0, LastPut(ops, key).value.1) in entries
  }

  lemma WithoutNoLonger<V>(entries: seq<Entry<V>>, key: string)
    ensures |Without(entries, key)| <= |entries|
  {
    if entries != [] {
      WithoutNoLonger(entries[1..], key);
    }
  }

  lemma StepHolds<V>(capacity: nat, ttl: int, s: State<V>, ops: seq<Op<V>>, op: Op<V>, now: real)
    requires Current(s.entries, ops) && Holds(s.entries, ops, ttl, now) && |s.entries| <= |ops| < capacity
    requires op.Get? ==> op.now <= now
    ensures Holds(Step(capacity, ttl, s, op).0.entries, ops + [op], ttl, now)
    ensures |Step(capacity, ttl, s, op).0.entries| <= |ops| + 1
  {
    assert (ops + [op])[..|ops|] == ops;
    var entries := Step(capacity, ttl, s, op).0.entries;
    if op.Get? || op.Put? || op.Invalidate? {
      WithoutNoLonger(s.entries, op.key);
    }
    forall key | LastPut(ops + [op], key).Some? && Alive(LastPut(ops + [op], key).value.1, ttl, now)
      ensures Entry(key, LastPut(ops + [op], key).value.0, LastPut(ops + [op], key).value.1) in entries
    {
      var e := Entry(key, LastPut(ops + [op], key).value.0, LastPut(ops + [op], key).value.1);
      if op.Get? || op.Put? || op.Invalidate? {
        WithoutMember(s.entries, op.key, e);
        FindMember(s.entries, op.key);
      }
    }
  }

  lemma {:induction false} RunHolds<V>(capacity: nat, ttl: int, s: State<V>, before: seq<Op<V>>, ops: seq<Op<V>>,
      now: real)
    requires Current(s.entries, before) && Holds(s.entries, before, ttl, now)
    requires |s.entries| <= |before| && |before| + |ops| <= capacity
    requires forall i :: 0 <= i < |ops| && ops[i].Get? ==> ops[i].now <= now
    ensures Holds(Run(capacity, ttl, s, ops).entries, before + ops, ttl, now)
    decreases ops
  {
    if ops == [] {
      assert before + ops == before;
    } else {
      StepCurrent(capacity, ttl, s, before, ops[0]);
      StepHolds(capacity, ttl, s, before, ops[0], now);
      RunHolds(capacity, ttl, Step(capacity, ttl, s, ops[0]).0, before + [ops[0]], ops[1..], now);
      assert before + [ops[0]] + ops[1..] == before + ops;
    }
  }

  /** With room for everything and a clock that does not go back, a request is answered exactly when
      something was stored under its key, not dropped since, and is no older than the time to live;
      the answer is that value. Smaller caches answer less by `InclusionFromNew`, and nothing else. */
  lemma RoomyCacheExact<V>(capacity: nat, ttl: int, ops: seq<Op<V>>, key: string, now: real)
    requires |ops| <= capacity && forall i :: 0 <= i < |ops| && ops[i].Get? ==> ops[i].now <= now
    ensures var s := Run(capacity, ttl, State([], 0, 0), ops);
            Step(capacity, ttl, s, Get(key, now)).1 ==
              match LastPut(ops, key)
              case None => None
              case Some((stored, stamp)) => if ttl <= 0 || now - stamp <= ttl as real then Some(stored) else None
  {
    var s := Run(capacity, ttl, State([], 0, 0), ops);
    RunCurrent(capacity, ttl, State([], 0, 0), [], ops);
    RunHolds(capacity, ttl, State([], 0, 0), [], ops, now);
    assert [] + ops == ops;
    FindMember(s.entries, key);
  }

  lemma {:induction false} WithoutLast<V>(entries: seq<Entry<V>>, e: Entry<V>)
    ensures Without(entries + [e], e.key) == Without(entries, e.key)
  {
    if entries == [] {
      assert entries + [e] == [e];
    } else {
      assert (entries + [e])[1..] == entries[1..] + [e];
      WithoutLast(entries[1..], e);
    }
  }

  /** What a request leaves: an entry that answered it is the most recent, one that did not is gone, and
      the others stay as they were. */
  lemma RequestLeaves<V>(capacity: nat, ttl: int, s: State<V>, key: string, now: real)
    ensures var (s', answer) := Step(capacity, ttl, s, Get(key, now));
            && Without(s'.entries, key) == Without(s.entries, key)
            && match answer
               case None => forall e :: e in s'.entries ==> e.key != key
               case Some(value) =>
                 && s'.entries != []
                 && var e := s'.entries[|s'.entries| - 1];
                    e in s.entries && e.key == key && e.value == value
  {
    FindMember(s.entries, key);
    var rest := Without(s.entries, key);
    forall e | e in rest
      ensures e.key != key
    {
      WithoutMember(s.entries, key, e);
    }
    AbsentIsKept(rest, key);
    if Find(s.entries, key).Some? {
      WithoutLast(rest, Find(s.entries, key).value);
    } else {
      AbsentIsKept(s.entries, key);
    }
  }

  /** How many of the requests were answered, or were not. */
  function Requests<V>(ops: seq<Op<V>>, answers: seq<Option<V>>, answered: bool): nat
    requires |ops| == |answers|
  {
    if ops == [] then 0
    else
      Requests(ops[1..], answers[1..], answered) + if ops[0].Get? && answers[0].Some? == answered then 1 else 0
  }

  /** Hits and misses count the answered and the unanswered requests since the counters were cleared. */
  lemma {:induction false} CountersTally<V>(capacity: nat, ttl: int, s: State<V>, ops: seq<Op<V>>)
    requires forall i :: 0 <= i < |ops| ==> !ops[i].Clear?
    ensures var s', answers := Run(capacity, ttl, s, ops), Answers(capacity, ttl, s, ops);
            s'.hits == s.hits + Requests(ops, answers, true) && s'.misses == s.misses + Requests(ops, answers, false)
    decreases ops
  {
    if ops != [] {
      CountersTally(capacity, ttl, Step(capacity, ttl, s, ops[0]).0, ops[1..]);
    }
  }

  // ---------------------------------------------------------------- the class

  lemma RenewedKeys<V>(entries: seq<Entry<V>>, e: Entry<V>)
    requires DistinctKeys(entries)
    ensures DistinctKeys(Without(entries, e.key) + [e])
  {
    WithoutFacts(entries, e.key);
    var rest := Without(entries, e.key);
    forall i | 0 <= i < |rest|
      ensures rest[i].key != e.key
    {
      assert rest[i].key in Keys(rest);
    }
  }

  class QueryCache<V(==)> {
    const maxSize: int
    const ttl: int
    var entries: seq<Entry<V>>
    var hits: nat
    var misses: nat

    ghost predicate Valid()
      reads this
    {
      DistinctKeys(entries)
    }

    function View(): State<V>
      reads this
    {
      State(entries, hits, misses)
    }

    constructor (maxSize: int, ttl: int)
      ensures Valid() && View() == State([], 0, 0)
      ensures this.maxSize == maxSize && this.ttl == ttl
    {
      this.maxSize := maxSize;
      this.ttl := ttl;
      entries := [];
      hits, misses := 0, 0;
    }

    method Get(key: string, now: real) returns (r: Option<V>)
      requires Valid()
      modifies this
      ensures Valid()
      ensures maxSize >= 0 ==> (View(), r) == Step(maxSize, ttl, old(View()), Op.Get(key, now))
      ensures r.Some? ==> Find(old(entries), key).Some? && !Expired(Find(old(entries), key).value, ttl, now)
    {
      WithoutFacts(entries, key);
      var entry := Find(entries, key);
      if entry == None {
        misses := misses + 1;
        return None;
      }
      if ttl > 0 && now - entry.value.stamp > ttl as real {
        entries := Without(entries, key);
        misses := misses + 1;
        return None;
      }
      FindFacts(entries, key);
      RenewedKeys(entries, entry.value);
      entries := Without(entries, key) + [entry.value];
      hits := hits + 1;
      return Some(entry.value.value);
    }

    /** With a negative capacity the eviction loop pops from an empty dictionary and raises. */
    method Put(key: string, value: V, now: real) returns (raised: bool)
      requires Valid()
      modifies this
      ensures Valid()
      ensures raised <==> maxSize < 0
      ensures maxSize >= 0 ==> View() == Step(maxSize, ttl, old(View()), Op.Put(key, value, now)).0
      ensures maxSize >= 0 ==> |entries| <= maxSize
      ensures maxSize < 0 ==> View() == old(View()).(entries := [])
    {
      var e := Entry(key, value, now);
      RenewedKeys(entries, e);
      entries := Without(entries, key) + [e];
      while |entries| > maxSize
        invariant DistinctKeys(entries)
        invariant maxSize >= 0 ==> Newest(entries, maxSize) == Newest(Without(old(entries), key) + [e], maxSize)
        invariant hits == old(hits) && misses == old(misses)
        decreases |entries|
      {
        if entries == [] {
          return true;
        }
        entries := entries[1..];
      }
      return false;
    }

    method Invalidate(key: string)
      requires Valid()
      modifies this
      ensures Valid()
      ensures maxSize >= 0 ==> View() == Step(maxSize, ttl, old(View()), Op.Invalidate(key)).0
    {
      WithoutFacts(entries, key);
      entries := Without(entries, key);
    }

    method Clear()
      modifies this
      ensures Valid()
      ensures maxSize >= 0 ==> View() == Step(maxSize, ttl, old(View()), Op.Clear).0
      ensures View() == State([], 0, 0)
    {
      entries := [];
      hits, misses := 0, 0;
    }
  }
}
