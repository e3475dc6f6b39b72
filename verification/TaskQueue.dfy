// The task queue: an abstract priority queue (a sequence in drain order), the
// in-process realisation over a priority heap, and the realisation over three
// Redis lists.
module TaskQueue {
  import opened Protocol
  import opened Seqs

  /** A queued spec together with the key it is ordered by. */
  datatype Keyed = Keyed(key: int, spec: TaskSpec)

  /** Arrival of e: behind everything whose key is not larger. */
  function Insert(q: seq<Keyed>, e: Keyed): seq<Keyed> {
    if q == [] || e.key < q[0].key then [e] + q
    else [q[0]] + Insert(q[1..], e)
  }

  function Enqueued(q: seq<Keyed>, spec: TaskSpec): seq<Keyed> {
    Insert(q, Keyed(spec.dispatchSpec.priority, spec))
  }

  function EnqueuedAll(q: seq<Keyed>, specs: seq<TaskSpec>): seq<Keyed>
    decreases specs
  {
    if specs == [] then q else EnqueuedAll(Enqueued(q, specs[0]), specs[1..])
  }

  function ByPriority(specs: seq<TaskSpec>): seq<Keyed> {
    seq(|specs|, i requires 0 <= i < |specs| => Keyed(specs[i].dispatchSpec.priority, specs[i]))
  }

  predicate Sorted(q: seq<Keyed>) {
    forall i, j :: 0 <= i < j < |q| ==> q[i].key <= q[j].key
  }

  /** Entries are keyed by the priority of their spec. */
  ghost predicate KeyedByPriority(q: seq<Keyed>) {
    forall i :: 0 <= i < |q| ==> q[i].key == q[i].spec.dispatchSpec.priority
  }

  function WithKey(q: seq<Keyed>, key: int): seq<Keyed> {
    if q == [] then []
    else (if q[0].key == key then [q[0]] else []) + WithKey(q[1..], key)
  }

  lemma {:induction false} InsertContents(q: seq<Keyed>, e: Keyed)
    ensures |Insert(q, e)| == |q| + 1
    ensures multiset(Insert(q, e)) == multiset(q) + multiset{e}
  {
    if q == [] || e.key < q[0].key {
    } else {
      InsertContents(q[1..], e);
      assert q == [q[0]] + q[1..];
    }
  }

  lemma {:induction false} InsertSorted(q: seq<Keyed>, e: Keyed)
    requires Sorted(q)
    ensures Sorted(Insert(q, e))
  {
    if q == [] || e.key < q[0].key {
    } else {
      InsertSorted(q[1..], e);
      InsertContents(q[1..], e);
      forall x | x in Insert(q[1..], e)
        ensures q[0].key <= x.key
      {
        assert x in multiset(Insert(q[1..], e));
      }
    }
  }

  lemma {:induction false} InsertWithKey(q: seq<Keyed>, e: Keyed, key: int)
    requires Sorted(q)
    ensures WithKey(Insert(q, e), key) == WithKey(q, key) + (if e.key == key then [e] else [])
  {
    if q == [] {
    } else if e.key < q[0].key {
      assert ([e] + q)[1..] == q;
      FirstKeyBound(q, key);
    } else {
      InsertWithKey(q[1..], e, key);
      assert Insert(q, e)[1..] == Insert(q[1..], e);
      Assoc(if q[0].key == key then [q[0]] else [], WithKey(q[1..], key), if e.key == key then [e] else []);
    }
  }

  lemma {:induction false} FirstKeyBound(q: seq<Keyed>, key: int)
    requires Sorted(q)
    ensures WithKey(q, key) != [] ==> q != [] && q[0].key <= key
  {
    if q != [] {
      FirstKeyBound(q[1..], key);
    }
  }

  /** Whatever was enqueued comes out as its stable sort by priority: ordered, and in
      arrival order within each priority (EnqueuedAllIsOnlyStableSort: no other order qualifies). */
  lemma {:induction false} EnqueuedAllIsStableSort(q: seq<Keyed>, specs: seq<TaskSpec>, key: int)
    requires Sorted(q)
    ensures Sorted(EnqueuedAll(q, specs))
    ensures WithKey(EnqueuedAll(q, specs), key) == WithKey(q, key) + WithKey(ByPriority(specs), key)
    decreases specs
  {
    if specs != [] {
      var e := Keyed(specs[0].dispatchSpec.priority, specs[0]);
      InsertSorted(q, e);
      InsertWithKey(q, e, key);
      EnqueuedAllIsStableSort(Enqueued(q, specs[0]), specs[1..], key);
      assert ByPriority(specs)[1..] == ByPriority(specs[1..]);
    }
  }

  lemma {:induction false} EnqueuedAllIsOnlyStableSort(a: seq<Keyed>, b: seq<Keyed>)
    requires Sorted(a) && Sorted(b)
    requires forall key :: WithKey(a, key) == WithKey(b, key)
    ensures a == b
  {
    HeadBound(a, b);
    HeadBound(b, a);
    if a != [] {
      var k := a[0].key;
      assert a[0] == WithKey(a, k)[0] == WithKey(b, k)[0] == b[0];
      forall key
        ensures WithKey(a[1..], key) == WithKey(b[1..], key)
      {
        assert WithKey(a, key) == WithKey(b, key);
        assert WithKey(a[1..], key) == WithKey(a, key)[if k == key then 1 else 0..];
      }
      EnqueuedAllIsOnlyStableSort(a[1..], b[1..]);
      assert a == [a[0]] + a[1..];
      assert b == [b[0]] + b[1..];
    }
  }

  lemma HeadBound(a: seq<Keyed>, b: seq<Keyed>)
    requires Sorted(b)
    requires forall key :: WithKey(a, key) == WithKey(b, key)
    ensures a != [] ==> b != [] && b[0].key <= a[0].key
  {
    if a != [] {
      assert WithKey(a, a[0].key) != [];
      FirstKeyBound(b, a[0].key);
    }
  }

  // ---------------------------------------------------------------- removing and re-inserting

  function Specs(q: seq<Keyed>): (r: seq<TaskSpec>)
    ensures |r| == |q| && forall i :: 0 <= i < |r| ==> r[i] == q[i].spec
  {
    seq(|q|, i requires 0 <= i < |q| => q[i].spec)
  }

  lemma {:induction false} InsertAtEnd(q: seq<Keyed>, e: Keyed)
    requires forall i :: 0 <= i < |q| ==> q[i].key <= e.key
    ensures Insert(q, e) == q + [e]
  {
    if q != [] {
      InsertAtEnd(q[1..], e);
    }
  }

  lemma {:induction false} EnqueuedInOrder(done: seq<Keyed>, rest: seq<Keyed>)
    requires Sorted(done + rest) && KeyedByPriority(rest)
    ensures EnqueuedAll(done, Specs(rest)) == done + rest
    decreases rest
  {
    if rest == [] {
      assert done + rest == done;
    } else {
      var all := done + rest;
      forall i | 0 <= i < |done|
        ensures done[i].key <= rest[0].key
      {
        assert all[i] == done[i] && all[|done|] == rest[0];
      }
      InsertAtEnd(done, rest[0]);
      assert done + rest == (done + [rest[0]]) + rest[1..];
      assert Specs(rest)[1..] == Specs(rest[1..]);
      EnqueuedInOrder(done + [rest[0]], rest[1..]);
    }
  }

  lemma {:induction false} EnqueuedAllConcat(q: seq<Keyed>, a: seq<TaskSpec>, b: seq<TaskSpec>)
    ensures EnqueuedAll(q, a + b) == EnqueuedAll(EnqueuedAll(q, a), b)
    decreases a
  {
    if a == [] {
      assert a + b == b;
    } else {
      assert (a + b)[1..] == a[1..] + b;
      EnqueuedAllConcat(Enqueued(q, a[0]), a[1..], b);
    }
  }

  /** Emptying a queue and enqueuing everything again restores it, although every entry comes
      back under a new counter. */
  lemma RequeuedIsUnchanged(q: seq<Keyed>)
    requires Sorted(q) && KeyedByPriority(q)
    ensures EnqueuedAll([], Specs(q)) == q
  {
    assert [] + q == q;
    EnqueuedInOrder([], q);
  }

  // ---------------------------------------------------------------- in-process queue

  /** What the heap stores; the counter makes entries of equal priority comparable. */
  datatype HeapItem = HeapItem(priority: int, counter: nat, spec: TaskSpec)

  predicate Precedes(x: HeapItem, y: HeapItem) {
    x.priority < y.priority || (x.priority == y.priority && x.counter <= y.counter)
  }

  ghost predicate DistinctCounters(heap: set<HeapItem>) {
    forall x, y :: x in heap && y in heap && x.counter == y.counter ==> x == y
  }

  ghost predicate IsLeast(heap: set<HeapItem>, x: HeapItem) {
    x in heap && forall y :: y in heap ==> Precedes(x, y)
  }

  lemma {:induction false} LeastExists(heap: set<HeapItem>)
    requires heap != {}
    ensures exists x :: IsLeast(heap, x)
    decreases |heap|
  {
    var y :| y in heap;
    var rest := heap - {y};
    assert heap == rest + {y};
    if rest == {} {
      assert IsLeast(heap, y);
    } else {
      LeastExists(rest);
      var x :| IsLeast(rest, x);
      assert IsLeast(heap, if Precedes(x, y) then x else y);
    }
  }

  ghost function Least(heap: set<HeapItem>): (x: HeapItem)
    requires heap != {}
    ensures IsLeast(heap, x)
  {
    LeastExists(heap);
    var x :| IsLeast(heap, x);
    x
  }

  /** The heap's contents in the order in which they will be dequeued. */
  ghost function DrainOrder(heap: set<HeapItem>): (q: seq<Keyed>)
    ensures |q| == |heap|
    decreases |heap|
  {
    if heap == {} then []
    else
      var x := Least(heap);
      [Keyed(x.priority, x.spec)] + DrainOrder(heap - {x})
  }

  lemma {:induction false} DrainOrderOfNew(heap: set<HeapItem>, x: HeapItem)
    requires DistinctCounters(heap)
    requires forall y :: y in heap ==> y.counter < x.counter
    ensures DrainOrder(heap + {x}) == Insert(DrainOrder(heap), Keyed(x.priority, x.spec))
    decreases |heap|
  {
    var all := heap + {x};
    if heap == {} {
      assert all == {x};
      assert all - {x} == {};
    } else {
      var first := Least(heap);
      if x.priority < first.priority {
        assert Least(all) == x;
        assert all - {x} == heap;
      } else {
        assert IsLeast(all, first);
        assert Least(all) == first;
        assert all - {first} == (heap - {first}) + {x};
        DrainOrderOfNew(heap - {first}, x);
      }
    }
  }

  lemma {:induction false} DrainOrderSorted(heap: set<HeapItem>)
    ensures Sorted(DrainOrder(heap))
    ensures forall i :: 0 <= i < |DrainOrder(heap)| ==>
      exists x :: x in heap && DrainOrder(heap)[i] == Keyed(x.priority, x.spec)
    decreases |heap|
  {
    if heap != {} {
      var first := Least(heap);
      DrainOrderSorted(heap - {first});
      var q, rest := DrainOrder(heap), DrainOrder(heap - {first});
      forall i | 0 <= i < |q|
        ensures exists x :: x in heap && q[i] == Keyed(x.priority, x.spec)
      {
        if i > 0 {
          var x :| x in heap - {first} && rest[i - 1] == Keyed(x.priority, x.spec);
          assert x in heap;
        } else {
          assert first in heap;
        }
      }
    }
  }

  class MemoryTaskQueue {
    var heap: set<HeapItem>
    var counter: nat

    ghost predicate Valid()
      reads this
    {
      && DistinctCounters(heap)
      && (forall x :: x in heap ==> x.counter <= counter && x.priority == x.spec.dispatchSpec.priority)
    }

    ghost function Contents(): seq<Keyed>
      reads this
    {
      DrainOrder(heap)
    }

    lemma ContentsOrdered()
      requires Valid()
      ensures Sorted(Contents()) && KeyedByPriority(Contents())
    {
      DrainOrderSorted(heap);
    }

    constructor ()
      ensures Valid() && Contents() == []
    {
      heap := {};
      counter := 0;
    }

    method Enqueue(spec: TaskSpec)
      requires Valid()
      modifies this
      ensures Valid()
      ensures Contents() == Enqueued(old(Contents()), spec)
    {
      counter := counter + 1;
      var x := HeapItem(spec.dispatchSpec.priority, counter, spec);
      DrainOrderOfNew(heap, x);
      heap := heap + {x};
    }

    method Dequeue() returns (spec: Option<TaskSpec>)
      requires Valid()
      modifies this
      ensures Valid()
      ensures old(Contents()) == [] ==> spec == None && Contents() == []
      ensures old(Contents()) != [] ==>
        spec == Some(old(Contents())[0].spec) && Contents() == old(Contents())[1..]
    {
      if heap == {} {
        return None;
      }
      LeastExists(heap);
      var x :| x in heap && forall y :: y in heap ==> Precedes(x, y);
      assert Precedes(x, Least(heap)) && Precedes(Least(heap), x);
      heap := heap - {x};
      return Some(x.spec);
    }

    method Size() returns (n: nat)
      requires Valid()
      ensures n == |Contents()|
    {
      n := |heap|;
    }

    method Clear()
      requires Valid()
      modifies this
      ensures Valid() && Contents() == []
    {
      while |heap| != 0
        invariant Valid()
        decreases |heap|
      {
        assert |Contents()| == |heap|;
        var _ := Dequeue();
      }
    }
  }

  // ---------------------------------------------------------------- Redis queue

  function Sign(priority: int): int {
    if priority < 0 then -1 else if priority > 0 then 1 else 0
  }

  /** Three lists; specs are pushed at index 0 and popped from the far end. */
  datatype Lists = Lists(high: seq<TaskSpec>, normal: seq<TaskSpec>, low: seq<TaskSpec>)

  function Push(lists: Lists, spec: TaskSpec): Lists {
    var priority := spec.dispatchSpec.priority;
    if priority < 0 then lists.(high := [spec] + lists.high)
    else if priority > 0 then lists.(low := [spec] + lists.low)
    else lists.(normal := [spec] + lists.normal)
  }

  function Pop(lists: Lists): (Option<TaskSpec>, Lists) {
    if lists.high != [] then
      (Some(lists.high[|lists.high| - 1]), lists.(high := lists.high[..|lists.high| - 1]))
    else if lists.normal != [] then
      (Some(lists.normal[|lists.normal| - 1]), lists.(normal := lists.normal[..|lists.normal| - 1]))
    else if lists.low != [] then
      (Some(lists.low[|lists.low| - 1]), lists.(low := lists.low[..|lists.low| - 1]))
    else
      (None, lists)
  }

  // ---------------------------------------------------------------- refinement of the in-process queue

  /** One list, oldest first, all under the same key. */
  function Oldest(list: seq<TaskSpec>, key: int): (q: seq<Keyed>)
    ensures |q| == |list| && forall i :: 0 <= i < |q| ==> q[i] == Keyed(key, list[|list| - 1 - i])
  {
    seq(|list|, i requires 0 <= i < |list| => Keyed(key, list[|list| - 1 - i]))
  }

  function Combined(lists: Lists): seq<Keyed> {
    Oldest(lists.high, -1) + Oldest(lists.normal, 0) + Oldest(lists.low, 1)
  }

  lemma {:induction false} InsertSplits(a: seq<Keyed>, b: seq<Keyed>, e: Keyed)
    requires forall i :: 0 <= i < |a| ==> a[i].key <= e.key
    requires forall i :: 0 <= i < |b| ==> e.key < b[i].key
    ensures Insert(a + b, e) == a + [e] + b
  {
    if a == [] {
      assert a + b == b;
    } else {
      assert (a + b)[1..] == a[1..] + b;
      InsertSplits(a[1..], b, e);
      assert [a[0]] + (a[1..] + [e] + b) == a + [e] + b;
    }
  }

  lemma OldestPushed(list: seq<TaskSpec>, spec: TaskSpec, key: int)
    ensures Oldest([spec] + list, key) == Oldest(list, key) + [Keyed(key, spec)]
  {
  }

  /** A new entry goes to the end of the stretch of its key. */
  lemma InsertMiddle(a: seq<Keyed>, b: seq<Keyed>, c: seq<Keyed>, e: Keyed)
    requires forall i :: 0 <= i < |a| ==> a[i].key <= e.key
    requires forall i :: 0 <= i < |b| ==> b[i].key <= e.key
    requires forall i :: 0 <= i < |c| ==> e.key < c[i].key
    ensures Insert(a + b + c, e) == a + (b + [e]) + c
  {
    forall i | 0 <= i < |a + b|
      ensures (a + b)[i].key <= e.key
    {
    }
    InsertSplits(a + b, c, e);
    Assoc(a, b, [e]);
  }

  lemma PushRefines(lists: Lists, spec: TaskSpec)
    ensures Combined(Push(lists, spec)) == Insert(Combined(lists), Keyed(Sign(spec.dispatchSpec.priority), spec))
  {
    var e := Keyed(Sign(spec.dispatchSpec.priority), spec);
    var h, n, l := Oldest(lists.high, -1), Oldest(lists.normal, 0), Oldest(lists.low, 1);
    if e.key < 0 {
      OldestPushed(lists.high, spec, -1);
      InsertMiddle([], h, n + l, e);
      assert [] + h + (n + l) == h + n + l && [] + (h + [e]) + (n + l) == h + [e] + n + l;
    } else if e.key == 0 {
      OldestPushed(lists.normal, spec, 0);
      InsertMiddle(h, n, l, e);
    } else {
      OldestPushed(lists.low, spec, 1);
      InsertMiddle(h + n, l, [], e);
      assert h + n + l + [] == h + n + l && h + n + (l + [e]) + [] == h + n + (l + [e]);
    }
  }

  lemma OldestWithoutLast(list: seq<TaskSpec>, key: int)
    requires list != []
    ensures Oldest(list, key)[0].spec == list[|list| - 1]
    ensures Oldest(list[..|list| - 1], key) == Oldest(list, key)[1..]
  {
  }

  lemma PopRefines(lists: Lists)
    ensures Combined(lists) == [] ==> Pop(lists) == (None, lists)
    ensures Combined(lists) != [] ==>
      Pop(lists).0 == Some(Combined(lists)[0].spec) && Combined(Pop(lists).1) == Combined(lists)[1..]
  {
    var h, n, l := Oldest(lists.high, -1), Oldest(lists.normal, 0), Oldest(lists.low, 1);
    if lists.high != [] {
      OldestWithoutLast(lists.high, -1);
      TailOfConcat(h, n);
      TailOfConcat(h + n, l);
    } else if lists.normal != [] {
      OldestWithoutLast(lists.normal, 0);
      NothingInFront(h, n);
      NothingInFront(h, n[1..]);
      TailOfConcat(n, l);
    } else if lists.low != [] {
      OldestWithoutLast(lists.low, 1);
      NothingInFront(h, n);
      NothingInFront(h + n, l);
      NothingInFront(h + n, l[1..]);
    }
  }

  lemma TailOfConcat(a: seq<Keyed>, b: seq<Keyed>)
    requires a != []
    ensures (a + b)[1..] == a[1..] + b && (a + b)[0] == a[0]
  {
  }

  lemma NothingInFront(a: seq<Keyed>, b: seq<Keyed>)
    requires a == []
    ensures a + b == b
  {
  }

  class RedisTaskQueue {
    var lists: Lists

    /** The three lists as one queue: urgent before normal before low, each oldest first. */
    function Contents(): seq<Keyed>
      reads this
    {
      Combined(lists)
    }

    constructor ()
      ensures lists == Lists([], [], []) && Contents() == []
    {
      lists := Lists([], [], []);
    }

    /** Behaves as the in-process queue given the sign of the priority. */
    method Enqueue(spec: TaskSpec)
      modifies this
      ensures lists == Push(old(lists), spec)
      ensures Contents() == Insert(old(Contents()), Keyed(Sign(spec.dispatchSpec.priority), spec))
    {
      PushRefines(lists, spec);
      var priority := spec.dispatchSpec.priority;
      if priority < 0 {
        lists := lists.(high := [spec] + lists.high);
      } else if priority > 0 {
        lists := lists.(low := [spec] + lists.low);
      } else {
        lists := lists.(normal := [spec] + lists.normal);
      }
    }

    /** Takes the head of the queue: what waited longest in the most urgent list that is not empty. */
    method Dequeue() returns (spec: Option<TaskSpec>)
      modifies this
      ensures old(Contents()) == [] ==> spec == None && lists == old(lists)
      ensures old(Contents()) != [] ==>
        spec == Some(old(Contents())[0].spec) && Contents() == old(Contents())[1..]
      ensures lists == Pop(old(lists)).1
    {
      PopRefines(lists);
      if lists.high != [] {
        spec := Some(lists.high[|lists.high| - 1]);
        lists := lists.(high := lists.high[..|lists.high| - 1]);
      } else if lists.normal != [] {
        spec := Some(lists.normal[|lists.normal| - 1]);
        lists := lists.(normal := lists.normal[..|lists.normal| - 1]);
      } else if lists.low != [] {
        spec := Some(lists.low[|lists.low| - 1]);
        lists := lists.(low := lists.low[..|lists.low| - 1]);
      } else {
        spec := None;
      }
    }

    method Size() returns (n: nat)
      ensures n == |Contents()|
    {
      n := |lists.high| + |lists.normal| + |lists.low|;
    }

    method Clear()
      modifies this
      ensures lists == Lists([], [], []) && Contents() == []
    {
      lists := lists.(high := []);
      lists := lists.(normal := []);
      lists := lists.(low := []);
    }
  }

  // ---------------------------------------------------------------- refinement over runs

  datatype Op = Enq(spec: TaskSpec) | Deq

  function RedisRun(lists: Lists, ops: seq<Op>): seq<Option<TaskSpec>>
    decreases ops
  {
    if ops == [] then []
    else match ops[0]
      case Enq(spec) => RedisRun(Push(lists, spec), ops[1..])
      case Deq => [Pop(lists).0] + RedisRun(Pop(lists).1, ops[1..])
  }

  /** Runs the abstract queue with every priority p replaced by key(p). */
  function MemoryRun(q: seq<Keyed>, ops: seq<Op>, key: int -> int): seq<Option<TaskSpec>>
    decreases ops
  {
    if ops == [] then []
    else match ops[0]
      case Enq(spec) => MemoryRun(Insert(q, Keyed(key(spec.dispatchSpec.priority), spec)), ops[1..], key)
      case Deq =>
        if q == [] then [None] + MemoryRun(q, ops[1..], key)
        else [Some(q[0].spec)] + MemoryRun(q[1..], ops[1..], key)
  }

  /** The three Redis lists answer every run exactly as the in-process queue fed with the
      sign of each priority. */
  lemma {:induction false} RedisRefinesMemory(lists: Lists, ops: seq<Op>)
    ensures RedisRun(lists, ops) == MemoryRun(Combined(lists), ops, Sign)
    decreases ops
  {
    if ops != [] {
      match ops[0]
      case Enq(spec) =>
        PushRefines(lists, spec);
        RedisRefinesMemory(Push(lists, spec), ops[1..]);
      case Deq =>
        PopRefines(lists);
        RedisRefinesMemory(Pop(lists).1, ops[1..]);
    }
  }

  /** Within P, the sign of a priority identifies the priority. */
  predicate SignFaithful(P: set<int>) {
    forall p, p' :: p in P && p' in P && Sign(p) == Sign(p') ==> p == p'
  }

  ghost predicate PrioritiesIn(ops: seq<Op>, P: set<int>) {
    forall i :: 0 <= i < |ops| && ops[i].Enq? ==> ops[i].spec.dispatchSpec.priority in P
  }

  function Signed(q: seq<Keyed>): (r: seq<Keyed>)
    ensures |r| == |q| && forall i :: 0 <= i < |q| ==> r[i] == Keyed(Sign(q[i].key), q[i].spec)
  {
    seq(|q|, i requires 0 <= i < |q| => Keyed(Sign(q[i].key), q[i].spec))
  }

  lemma {:induction false} InsertSigned(q: seq<Keyed>, e: Keyed, P: set<int>)
    requires SignFaithful(P) && e.key in P && forall i :: 0 <= i < |q| ==> q[i].key in P
    ensures Signed(Insert(q, e)) == Insert(Signed(q), Keyed(Sign(e.key), e.spec))
  {
    if q == [] || e.key < q[0].key {
    } else {
      InsertSigned(q[1..], e, P);
      assert Signed(q)[1..] == Signed(q[1..]);
    }
  }

  lemma {:induction false} SignedRun(q: seq<Keyed>, ops: seq<Op>, P: set<int>)
    requires SignFaithful(P) && PrioritiesIn(ops, P) && forall i :: 0 <= i < |q| ==> q[i].key in P
    ensures MemoryRun(q, ops, p => p) == MemoryRun(Signed(q), ops, Sign)
    decreases ops
  {
    if ops != [] {
      assert PrioritiesIn(ops[1..], P);
      match ops[0]
      case Enq(spec) =>
        var e := Keyed(spec.dispatchSpec.priority, spec);
        InsertSigned(q, e, P);
        InsertContents(q, e);
        forall x | x in Insert(q, e)
          ensures x.key in P
        {
          assert x in multiset(Insert(q, e));
        }
        SignedRun(Insert(q, e), ops[1..], P);
      case Deq =>
        if q == [] {
          SignedRun(q, ops[1..], P);
        } else {
          SignedRun(q[1..], ops[1..], P);
          assert Signed(q)[1..] == Signed(q[1..]);
        }
    }
  }

  function Specimen(id: string, priority: int): TaskSpec {
    TaskSpec(id, DataSpec([], "1d", None, None, None), ComputeSpec("custom", [], [], [], 0, 0, Missing, Missing),
             DispatchSpec("none", None, priority))
  }

  /** Two priorities of the same sign are enough to tell the two queues apart. */
  lemma TellApart(p: int, p': int)
    requires p < p' && Sign(p) == Sign(p')
    ensures var ops := [Enq(Specimen("late", p')), Enq(Specimen("early", p)), Deq];
            RedisRun(Lists([], [], []), ops) != MemoryRun([], ops, x => x)
  {
    var late, early := Specimen("late", p'), Specimen("early", p);
    var ops := [Enq(late), Enq(early), Deq];
    assert ops[1..] == [Enq(early), Deq] && ops[1..][1..] == [Deq];
    var q := Insert([], Keyed(p', late));
    assert q == [Keyed(p', late)];
    var q' := Insert(q, Keyed(p, early));
    assert q'[0] == Keyed(p, early);
    assert MemoryRun(q', [Deq], x => x)[0] == Some(early);
    assert MemoryRun([], ops, x => x) == MemoryRun(q, ops[1..], x => x) == MemoryRun(q', [Deq], x => x);
    var lists := Push(Push(Lists([], [], []), late), early);
    assert Pop(lists).0 == Some(late);
    assert RedisRun(lists, [Deq])[0] == Some(late);
    assert RedisRun(Lists([], [], []), ops) == RedisRun(Push(Lists([], [], []), late), ops[1..]) ==
      RedisRun(lists, [Deq]);
    assert late.taskId[0] != early.taskId[0];
  }

  /** The two queues are interchangeable for jobs with priorities from P exactly when P holds
      at most one priority of each sign. */
  lemma RedisMatchesMemoryIff(P: set<int>)
    ensures SignFaithful(P) <==>
      forall ops :: PrioritiesIn(ops, P) ==> RedisRun(Lists([], [], []), ops) == MemoryRun([], ops, p => p)
  {
    var none := Lists([], [], []);
    if SignFaithful(P) {
      forall ops | PrioritiesIn(ops, P)
        ensures RedisRun(none, ops) == MemoryRun([], ops, p => p)
      {
        RedisRefinesMemory(none, ops);
        SignedRun([], ops, P);
        assert Combined(none) == [] == Signed([]);
      }
    } else {
      var p, p' :| p in P && p' in P && Sign(p) == Sign(p') && p < p';
      TellApart(p, p');
      var ops := [Enq(Specimen("late", p')), Enq(Specimen("early", p)), Deq];
      assert PrioritiesIn(ops, P);
    }
  }
}
