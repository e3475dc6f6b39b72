// A call that no other thread interrupts is the run of its sections: the
// methods of the dispatcher object agree with the state machine.
module UndisturbedCalls {
  import opened Protocol
  import opened Dicts
  import opened SliceIds
  import opened DispatcherModel
  import Dispatcher
  import Shard
  import TaskQueue

  /** k steps of thread i. */
  function Advances(m: Machine, i: nat, k: nat): Machine
    decreases k
  {
    if k == 0 then m else Advances(Step(m, Advance(i)), i, k - 1)
  }

  lemma {:induction false} AdvancesAdd(m: Machine, i: nat, j: nat, k: nat)
    ensures Advances(m, i, j + k) == Advances(Advances(m, i, j), i, k)
    decreases j
  {
    if j > 0 {
      AdvancesAdd(Step(m, Advance(i)), i, j - 1, k);
    }
  }

  /** Once every thread has enqueued what it holds it is done. */
  lemma {:induction false} Enqueues(m: Machine, i: nat)
    requires i < |m.threads| && (m.threads[i].Enqueuing? || m.threads[i].PuttingBack?)
    ensures var rest := m.threads[i].rest;
            var r := Advances(m, i, |rest| + 1);
            r.shared == Dispatcher.EnqueuedEach(m.shared, rest) && r.threads == m.threads[i := Done]
    decreases |m.threads[i].rest|
  {
    var rest := m.threads[i].rest;
    var m' := Step(m, Advance(i));
    if rest == [] {
      assert Advances(m, i, 1) == Advances(m', i, 0) == m';
    } else {
      Enqueues(m', i);
      assert m'.threads[i].rest == rest[1..];
    }
  }

  /** Submission. */
  lemma SubmitIsRun(m: Machine, spec: TaskSpec)
    ensures var r := Advances(Step(m, Submit(spec)), |m.threads|, |Shard.ShardTask(spec)| + 2);
            && r.shared == Dispatcher.EnqueuedEach(Attached(Registered(m.shared, spec), spec), Shard.ShardTask(spec))
            && r.threads == m.threads + [Done]
  {
    var n, slices := |m.threads|, Shard.ShardTask(spec);
    var m1 := Step(m, Submit(spec));
    var m2 := Step(m1, Advance(n));
    AttachingTasks(m1, n);
    assert m2.threads == m1.threads[n := Enqueuing(slices)];
    assert Advances(m1, n, |slices| + 2) == Advances(m2, n, |slices| + 1);
    Enqueues(m2, n);
  }

  /** Completion. */
  lemma CompleteIsRun(m: Machine, id: string, result: Outcome)
    requires Has(m.shared.tasks, Parent(id))
    ensures var r := Advances(Step(m, Complete(id, result)), |m.threads|, 1);
            r.shared == CompletionChecked(ResultStored(m.shared, id, result), Parent(id)) &&
              r.threads == m.threads + [Done]
  {
    var m1 := Step(m, Complete(id, result));
    RecordingTasks(m1, |m.threads|);
    assert Advances(m1, |m.threads|, 1) == Advances(Step(m1, Advance(|m.threads|)), |m.threads|, 0);
  }

  /** Failure. */
  lemma FailIsRun(m: Machine, id: string, retryable: bool)
    requires Has(m.shared.tasks, Parent(id))
    ensures var r := Advances(Step(m, Fail(id, retryable)), |m.threads|, 1);
            r.shared == RetryDecided(FailureNoted(m.shared, id), Parent(id), retryable) &&
              r.threads == m.threads + [Done]
  {
    var m1 := Step(m, Fail(id, retryable));
    RecordingTasks(m1, |m.threads|);
    assert Advances(m1, |m.threads|, 1) == Advances(Step(m1, Advance(|m.threads|)), |m.threads|, 0);
  }

  /** Timeout. */
  lemma TimeoutIsRun(m: Machine, worker: string)
    ensures var r := Advances(Step(m, Timeout(worker)), |m.threads|, |AllReclaimed(m.shared.tasks, worker)| + 1);
            r.shared == Reassigned(m.shared, worker) && r.threads == m.threads + [Done]
  {
    Enqueues(Step(m, Timeout(worker)), |m.threads|);
  }

  /** Where the scan of thread i of m ends: at the first capable spec or at the end of the queue. */
  ghost predicate ScanEnds(m: Machine, i: nat, r: Machine)
    requires i < |m.threads| && m.threads[i].Scanning?
  {
    var t, q := m.threads[i], m.shared.queue;
    var k := Dispatcher.FirstCapable(q, t.capabilities);
    if k == |q| then
      && r.shared == m.shared.(queue := [])
      && r.threads == m.threads[i := PuttingBack(t.skipped + TaskQueue.Specs(q))]
    else
      && r.shared == m.shared.(queue := q[k + 1..])
      && r.threads == m.threads[i := Holding(t.worker, q[k].spec)]
  }

  lemma SkipsOne(m: Machine, i: nat, r: Machine)
    requires i < |m.threads| && m.threads[i].Scanning?
    requires m.shared.queue != [] && !Capable(m.shared.queue[0].spec, m.threads[i].capabilities)
    requires ScanEnds(Scanned(m, i), i, r)
    ensures ScanEnds(m, i, r)
  {
    var q, skipped := m.shared.queue, m.threads[i].skipped;
    assert skipped + [q[0].spec] + TaskQueue.Specs(q[1..]) == skipped + TaskQueue.Specs(q);
  }

  lemma {:induction false} Scans(m: Machine, i: nat)
    requires i < |m.threads| && m.threads[i].Scanning?
    ensures ScanEnds(m, i, Advances(m, i, Dispatcher.FirstCapable(m.shared.queue, m.threads[i].capabilities) + 1))
    decreases |m.shared.queue|
  {
    var q := m.shared.queue;
    var m' := Step(m, Advance(i));
    if q == [] {
      assert m.threads[i].skipped + TaskQueue.Specs(q) == m.threads[i].skipped;
      assert Advances(m, i, 1) == Advances(m', i, 0) == m';
    } else if Capable(q[0].spec, m.threads[i].capabilities) {
      assert Advances(m, i, 1) == Advances(m', i, 0) == m';
    } else {
      Scans(m', i);
      SkipsOne(m, i, Advances(m', i, Dispatcher.FirstCapable(q[1..], m.threads[i].capabilities) + 1));
    }
  }

  // ---------------------------------------------------------------- the queue of a run

  /** The queue is in order, each spec under its own priority. */
  ghost predicate InOrder(q: seq<TaskQueue.Keyed>) {
    TaskQueue.Sorted(q) && TaskQueue.KeyedByPriority(q)
  }

  lemma EnqueuedInOrder(q: seq<TaskQueue.Keyed>, spec: TaskSpec)
    requires InOrder(q)
    ensures InOrder(TaskQueue.Enqueued(q, spec))
  {
    var e := TaskQueue.Keyed(spec.dispatchSpec.priority, spec);
    TaskQueue.InsertSorted(q, e);
    TaskQueue.InsertContents(q, e);
    forall i | 0 <= i < |TaskQueue.Insert(q, e)|
      ensures TaskQueue.Insert(q, e)[i].key == TaskQueue.Insert(q, e)[i].spec.dispatchSpec.priority
    {
      assert TaskQueue.Insert(q, e)[i] in multiset(TaskQueue.Insert(q, e));
    }
  }

  /** A step leaves the queue alone, takes its head or adds one spec. */
  lemma StepInOrder(m: Machine, op: Op)
    requires InOrder(m.shared.queue)
    ensures InOrder(Step(m, op).shared.queue)
  {
    if op.Advance? && op.thread < |m.threads| {
      match m.threads[op.thread] {
        case Enqueuing(rest) => if rest != [] { EnqueuedInOrder(m.shared.queue, rest[0]); }
        case PuttingBack(rest) => if rest != [] { EnqueuedInOrder(m.shared.queue, rest[0]); }
        case DecidingRetry(parent, retryable) =>
          if Retries(m.shared, parent, retryable) {
            EnqueuedInOrder(m.shared.queue, Get(m.shared.tasks, parent).value.spec);
          }
        case _ =>
      }
    }
  }

  lemma {:induction false} RunInOrder(m: Machine, ops: seq<Op>)
    requires InOrder(m.shared.queue)
    ensures InOrder(Run(m, ops).shared.queue)
    decreases ops
  {
    if ops != [] {
      StepInOrder(m, ops[0]);
      RunInOrder(Step(m, ops[0]), ops[1..]);
    }
  }

  // ---------------------------------------------------------------- assignment

  /** The shared state after an undisturbed assignment. */
  function AfterAssignment(s: Shared, worker: string, capabilities: seq<string>): Shared {
    match Dispatcher.Found(s.queue, capabilities)
    case None => s
    case Some(spec) =>
      AssignmentRecorded(s.(queue := Dispatcher.QueueAfterScan(s.queue, capabilities)), spec.taskId, worker)
  }

  lemma OrderedAssignment(m: Machine, worker: string, capabilities: seq<string>) returns (k: nat)
    requires InOrder(m.shared.queue)
    ensures var r := Advances(Step(m, Assign(worker, capabilities)), |m.threads|, k);
            r.shared == AfterAssignment(m.shared, worker, capabilities) && r.threads == m.threads + [Done]
  {
    var n := |m.threads|;
    var m1 := Step(m, Assign(worker, capabilities));
    var f := Dispatcher.FirstCapable(m.shared.queue, capabilities);
    Scans(m1, n);
    var m2 := Advances(m1, n, f + 1);
    var rest := if f == |m.shared.queue| then |m.shared.queue| + 1 else 1;
    k := f + 1 + rest;
    AdvancesAdd(m1, n, f + 1, rest);
    if f == |m.shared.queue| {
      PutsBack(m1, m2, n, m);
    } else {
      Records(m1, m2, n);
    }
  }

  /** Assignment, in every reachable state. */
  lemma AssignIsRun(ops: seq<Op>, worker: string, capabilities: seq<string>) returns (k: nat)
    ensures var m := Run(START, ops);
            var r := Advances(Step(m, Assign(worker, capabilities)), |m.threads|, k);
            r.shared == AfterAssignment(m.shared, worker, capabilities) && r.threads == m.threads + [Done]
  {
    RunInOrder(START, ops);
    k := OrderedAssignment(Run(START, ops), worker, capabilities);
  }

  lemma PutsBack(m1: Machine, m2: Machine, n: nat, m: Machine)
    requires n < |m1.threads| && m1.threads[n].Scanning? && m1.threads[n].skipped == [] && m1.shared == m.shared
    requires InOrder(m.shared.queue)
    requires Dispatcher.FirstCapable(m.shared.queue, m1.threads[n].capabilities) == |m.shared.queue| &&
      ScanEnds(m1, n, m2)
    ensures var r := Advances(m2, n, |m.shared.queue| + 1); r.shared == m.shared && r.threads == m1.threads[n := Done]
  {
    var q := m.shared.queue;
    assert [] + TaskQueue.Specs(q) == TaskQueue.Specs(q);
    Enqueues(m2, n);
    TaskQueue.RequeuedIsUnchanged(q);
  }

  lemma Records(m1: Machine, m2: Machine, n: nat)
    requires n < |m1.threads| && m1.threads[n].Scanning?
    requires Dispatcher.FirstCapable(m1.shared.queue, m1.threads[n].capabilities) < |m1.shared.queue| &&
      ScanEnds(m1, n, m2)
    ensures var r := Advances(m2, n, 1);
            && r.shared == AfterAssignment(m1.shared, m1.threads[n].worker, m1.threads[n].capabilities)
            && r.threads == m1.threads[n := Done]
  {
    RecordingTasks(m2, n);
    assert Advances(m2, n, 1) == Advances(Step(m2, Advance(n)), n, 0);
  }
}
