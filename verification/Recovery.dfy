// No dead ends: from every reachable state whose slices are all tracked, a task
// that was neither disturbed nor reported twice can still be brought to
// completion.
module Recovery {
  import opened Protocol
  import opened Dicts
  import opened Seqs
  import opened SliceIds
  import opened DispatcherModel
  import opened Conservation
  import opened Provenance
  import opened Completion
  import opened DispatcherRuns
  import opened SliceTracking
  import Merge
  import Shard
  import TaskQueue

  // ---------------------------------------------------------------- what is kept

  /** Slices are on record as assigned only after they were handed out. */
  ghost predicate AssignedHanded(m: Machine, task: string) {
    Has(m.shared.tasks, task) ==>
      forall id :: Has(Get(m.shared.tasks, task).value.assignments, id) ==> id in m.log.handed
  }

  lemma {:induction false} WithoutWorkerHas(assignments: Dict<string>, worker: string, id: string)
    requires Has(WithoutWorker(assignments, worker), id)
    ensures Has(assignments, id)
  {
    if assignments[0].key != id {
      if assignments[0].value != worker {
        assert WithoutWorker(assignments, worker)[1..] == WithoutWorker(assignments[1..], worker);
      }
      WithoutWorkerHas(assignments[1..], worker, id);
    }
  }

  lemma TimeoutAssignedHanded(m: Machine, worker: string, task: string)
    requires AssignedHanded(m, task)
    ensures AssignedHanded(Step(m, Timeout(worker)), task)
  {
    if Has(m.shared.tasks, task) {
      var assignments := Get(m.shared.tasks, task).value.assignments;
      forall id | Has(WithoutWorker(assignments, worker), id)
        ensures id in m.log.handed
      {
        WithoutWorkerHas(assignments, worker, id);
      }
    }
  }

  lemma AdvancedAssignedHanded(m: Machine, i: nat, task: string)
    requires i < |m.threads| && AssignedHanded(m, task)
    ensures AssignedHanded(Advanced(m, i), task)
  {
    if QueueOnly(m.threads[i]) {
      QueueOnlyTasks(m, i);
    } else if m.threads[i].Attaching? {
      AttachingTasks(m, i);
    } else {
      RecordingTasks(m, i);
    }
  }

  lemma StepAssignedHanded(m: Machine, op: Op, task: string)
    requires AssignedHanded(m, task)
    ensures AssignedHanded(Step(m, op), task)
  {
    if op.Timeout? {
      TimeoutAssignedHanded(m, op.worker, task);
    } else if op.Advance? && op.thread < |m.threads| {
      AdvancedAssignedHanded(m, op.thread, task);
    }
  }

  lemma {:induction false} RunKept(m: Machine, ops: seq<Op>, task: string)
    requires AssignedHanded(m, task) && Attachments(m) && WellNamed(m) && AllFresh(m, ops)
    ensures AssignedHanded(Run(m, ops), task) && Attachments(Run(m, ops))
    decreases ops
  {
    if ops != [] {
      StepAssignedHanded(m, ops[0], task);
      StepAttachments(m, ops[0]);
      StepWellNamed(m, ops[0]);
      RunKept(Step(m, ops[0]), ops[1..], task);
    }
  }

  /** Everything known about a state in which the task can still be completed. */
  ghost predicate Sound(m: Machine, task: string, spec: TaskSpec) {
    && Reachable(m, task) && ReportsHanded(m) && AssignedHanded(m, task)
    && Attachments(m) && AllTracked(m)
    && Undisturbed(m, task) && Get(m.shared.tasks, task).value.spec == spec
  }

  ghost predicate Admissible(m: Machine, op: Op) {
    Fresh(m, op) && Honest(m, op) && TakesHead(m, op)
  }

  lemma SoundStep(m: Machine, op: Op, task: string, spec: TaskSpec)
    requires Sound(m, task, spec) && Admissible(m, op)
    requires Undisturbed(Step(m, op), task) && Get(Step(m, op).shared.tasks, task).value.spec == spec
    ensures Sound(Step(m, op), task, spec)
  {
    StepReachable(m, op, task);
    StepAssignedHanded(m, op, task);
    StepAttachments(m, op);
    StepTracks(m, op);
  }

  lemma SoundAdvance(m: Machine, i: nat, task: string, spec: TaskSpec)
    requires Sound(m, task, spec) && i < |m.threads| && TakesHead(m, Advance(i))
    ensures Sound(Step(m, Advance(i)), task, spec) && Leads(m, [Advance(i)], Step(m, Advance(i)))
  {
    AdvancedKeeps(m, i, task);
    AdvancedReports(m, i, task);
    AdvancedLog(m, i);
    SoundStep(m, Advance(i), task, spec);
    LeadsOne(m, Advance(i));
  }

  lemma LeadsThrough(m: Machine, a: seq<Op>, m1: Machine, b: seq<Op>, m2: Machine)
    requires Leads(m, a, m1) && Leads(m1, b, m2)
    ensures Leads(m, a + b, m2)
  {
    RunConcat(m, a, b);
  }

  // ---------------------------------------------------------------- work under way

  /** Steps a thread can still take, with three for each spec it holds. */
  function ThreadWork(t: Thread): nat {
    match t
    case Attaching(spec) => 3 * |Shard.ShardTask(spec)| + 2
    case Enqueuing(rest) => 3 * |rest| + 1
    case Scanning(_, _, skipped) => 3 * |skipped| + 2
    case PuttingBack(rest) => 3 * |rest| + 1
    case Holding(_, _) => 1
    case _ => 0
  }

  function ThreadsWork(threads: seq<Thread>): nat {
    if threads == [] then 0 else ThreadWork(threads[0]) + ThreadsWork(threads[1..])
  }

  function Work(m: Machine): nat {
    2 * |m.shared.queue| + ThreadsWork(m.threads)
  }

  lemma {:induction false} WorkMoved(threads: seq<Thread>, i: nat, t: Thread)
    requires i < |threads|
    ensures ThreadsWork(threads[i := t]) + ThreadWork(threads[i]) == ThreadsWork(threads) + ThreadWork(t)
  {
    if i == 0 {
      assert threads[i := t][1..] == threads[1..];
    } else {
      WorkMoved(threads[1..], i - 1, t);
      assert threads[i := t][1..] == threads[1..][i - 1 := t];
    }
  }

  lemma {:induction false} WorkStarted(threads: seq<Thread>, t: Thread)
    ensures ThreadsWork(threads + [t]) == ThreadsWork(threads) + ThreadWork(t)
  {
    if threads == [] {
      assert threads + [t] == [t];
      assert ThreadsWork([t]) == ThreadWork(t) + ThreadsWork([]);
    } else {
      WorkStarted(threads[1..], t);
      assert (threads + [t])[1..] == threads[1..] + [t];
    }
  }

  lemma {:induction false} BusyThread(threads: seq<Thread>) returns (i: nat)
    requires ThreadsWork(threads) > 0
    ensures i < |threads| && ThreadWork(threads[i]) > 0
  {
    if ThreadWork(threads[0]) > 0 {
      i := 0;
    } else {
      i := BusyThread(threads[1..]);
      i := i + 1;
    }
  }

  lemma EnqueuedLonger(s: Shared, spec: TaskSpec)
    ensures |Enqueued(s, spec).queue| == |s.queue| + 1
  {
    TaskQueue.InsertContents(s.queue, TaskQueue.Keyed(spec.dispatchSpec.priority, spec));
  }

  /** With the queue empty a busy thread gets on with its work. */
  lemma BusyAdvances(m: Machine, i: nat)
    requires m.shared.queue == [] && i < |m.threads| && ThreadWork(m.threads[i]) > 0
    ensures Work(Advanced(m, i)) < Work(m) && TakesHead(m, Advance(i))
  {
    WorkMoved(m.threads, i, Advanced(m, i).threads[i]);
    if (m.threads[i].Enqueuing? || m.threads[i].PuttingBack?) && m.threads[i].rest != [] {
      EnqueuedLonger(m.shared, m.threads[i].rest[0]);
    }
  }

  const ANYTHING := ["custom"]

  lemma ScanTakesHead(m: Machine, threads: seq<Thread>)
    requires m.threads == threads + [Scanning("", ANYTHING, [])] && m.shared.queue != []
    ensures var m' := Step(m, Advance(|threads|));
            m'.threads == threads + [Holding("", m.shared.queue[0].spec)] && m'.shared.queue == m.shared.queue[1..]
    ensures TakesHead(m, Advance(|threads|))
  {
    assert "custom" in ANYTHING by { assert ANYTHING[0] == "custom"; }
  }

  lemma HoldingEnds(m: Machine, threads: seq<Thread>, spec: TaskSpec)
    requires m.threads == threads + [Holding("", spec)]
    ensures var m' := Step(m, Advance(|threads|));
            m'.threads == threads + [Done] && m'.shared.queue == m.shared.queue
    ensures TakesHead(m, Advance(|threads|))
  {
  }

  /** The head of the queue is handed to a worker that can run everything. */
  lemma HeadHandedOut(m: Machine, task: string, spec: TaskSpec) returns (ops: seq<Op>, m': Machine)
    requires Sound(m, task, spec) && m.shared.queue != []
    ensures Leads(m, ops, m') && Sound(m', task, spec) && Work(m') < Work(m)
  {
    var n := |m.threads|;
    var m1 := Step(m, Assign("", ANYTHING));
    SoundStep(m, Assign("", ANYTHING), task, spec);
    LeadsOne(m, Assign("", ANYTHING));
    var m2 := Step(m1, Advance(n));
    ScanTakesHead(m1, m.threads);
    SoundAdvance(m1, n, task, spec);
    m' := Step(m2, Advance(n));
    HoldingEnds(m2, m.threads, m.shared.queue[0].spec);
    SoundAdvance(m2, n, task, spec);
    WorkStarted(m.threads, Done);
    LeadsThrough(m, [Assign("", ANYTHING)], m1, [Advance(n)], m2);
    LeadsThrough(m, [Assign("", ANYTHING)] + [Advance(n)], m2, [Advance(n)], m');
    ops := [Assign("", ANYTHING)] + [Advance(n)] + [Advance(n)];
  }

  /** All work under way can be finished. */
  lemma {:induction false} WorkFinished(m: Machine, task: string, spec: TaskSpec) returns (ops: seq<Op>, m': Machine)
    requires Sound(m, task, spec)
    ensures Leads(m, ops, m') && Sound(m', task, spec) && Work(m') == 0
    decreases Work(m)
  {
    if Work(m) == 0 {
      return [], m;
    }
    var first, m1;
    if m.shared.queue != [] {
      first, m1 := HeadHandedOut(m, task, spec);
    } else {
      var i := BusyThread(m.threads);
      BusyAdvances(m, i);
      SoundAdvance(m, i, task, spec);
      first, m1 := [Advance(i)], Step(m, Advance(i));
    }
    var rest;
    rest, m' := WorkFinished(m1, task, spec);
    LeadsThrough(m, first, m1, rest, m');
    ops := first + rest;
  }

  // ---------------------------------------------------------------- missing reports

  lemma {:induction false} NothingCarried(threads: seq<Thread>, slice: TaskSpec)
    requires ThreadsWork(threads) == 0
    ensures !Carried(threads, slice)
  {
    if threads != [] {
      NothingCarried(threads[1..], slice);
    }
  }

  /** With no work under way, a slice without a report is assigned. */
  lemma MissingIsAssigned(m: Machine, task: string, spec: TaskSpec, slice: TaskSpec)
    requires Sound(m, task, spec) && Work(m) == 0 && slice in Shard.ShardTask(spec)
    requires slice.taskId !in Reports(m, task)
    ensures slice.taskId in m.log.handed && Parent(slice.taskId) == task
  {
    assert IsSlice(m, task, slice);
    NothingCarried(m.threads, slice);
    SliceRouted(spec, slice);
  }

  lemma MissingReported(m: Machine, task: string, spec: TaskSpec, slice: TaskSpec, result: Outcome)
    requires Sound(m, task, spec) && Work(m) == 0 && slice in Shard.ShardTask(spec)
    requires slice.taskId !in Reports(m, task)
    ensures var op := Complete(slice.taskId, result);
            && Leads(m, [op], Step(m, op)) && Sound(Step(m, op), task, spec) && Work(Step(m, op)) == 0
            && Reports(Step(m, op), task) == Reports(m, task) + [slice.taskId]
            && |Reports(m, task)| < |SliceIdsOf(m, task)|
  {
    var op := Complete(slice.taskId, result);
    MissingIsAssigned(m, task, spec, slice);
    ReportAdded(m, task, spec, slice.taskId, result);
    SoundStep(m, op, task, spec);
    LeadsOne(m, op);
    ReportsAreSlices(Step(m, op), task);
  }

  lemma ReportAdded(m: Machine, task: string, spec: TaskSpec, id: string, result: Outcome)
    requires Undisturbed(m, task) && Parent(id) == task && id !in Reports(m, task)
    requires Get(m.shared.tasks, task).value.spec == spec
    ensures var m' := Step(m, Complete(id, result));
            && Reports(m', task) == Reports(m, task) + [id] && Undisturbed(m', task)
            && Get(m'.shared.tasks, task).value.spec == spec && Work(m') == Work(m)
  {
    ForOne(m.log.reports, id, task);
    WorkStarted(m.threads, CheckingCompletion(task));
  }

  /** With all slices reported, the task is completed or a pending check completes it. */
  lemma CheckedLast(m: Machine, task: string, spec: TaskSpec) returns (ops: seq<Op>, m': Machine)
    requires Sound(m, task, spec) && |SliceIdsOf(m, task)| >= 1
    requires forall id :: id in SliceIdsOf(m, task) ==> id in Reports(m, task)
    ensures Leads(m, ops, m') && Sound(m', task, spec) && Get(m'.shared.tasks, task).value.status == COMPLETED
  {
    ReportsAreSlices(m, task);
    if Get(m.shared.tasks, task).value.status == COMPLETED {
      return [], m;
    }
    assert CheckingCompletion(task) in m.threads;
    var i :| 0 <= i < |m.threads| && m.threads[i] == CheckingCompletion(task);
    SoundAdvance(m, i, task, spec);
    RecordingTasks(m, i);
    ops, m' := [Advance(i)], Step(m, Advance(i));
  }

  lemma {:induction false} AllReported(m: Machine, task: string, spec: TaskSpec) returns (ops: seq<Op>, m': Machine)
    requires Sound(m, task, spec) && Work(m) == 0 && |SliceIdsOf(m, task)| >= 1
    ensures Leads(m, ops, m') && Sound(m', task, spec) && Get(m'.shared.tasks, task).value.status == COMPLETED
    decreases |SliceIdsOf(m, task)| - |Reports(m, task)|
  {
    var slices := Shard.ShardTask(spec);
    if forall id :: id in SliceIdsOf(m, task) ==> id in Reports(m, task) {
      ops, m' := CheckedLast(m, task, spec);
    } else {
      var id :| id in SliceIdsOf(m, task) && id !in Reports(m, task);
      var k :| 0 <= k < |slices| && Ids(slices)[k] == id;
      var op := Complete(id, Merge.Nothing);
      MissingReported(m, task, spec, slices[k], Merge.Nothing);
      var rest;
      rest, m' := AllReported(Step(m, op), task, spec);
      LeadsThrough(m, [op], Step(m, op), rest, m');
      ops := [op] + rest;
    }
  }

  /** Whatever happened so far: as long as the slices are tracked, a task with slices that was
      neither failed nor cancelled, and no slice of which was reported twice, can be completed. */
  lemma Completable(ops: seq<Op>, task: string) returns (more: seq<Op>)
    requires AllFresh(START, ops) && AllHonest(START, ops) && AllTracked(Run(START, ops))
    requires Undisturbed(Run(START, ops), task) && |SliceIdsOf(Run(START, ops), task)| >= 1
    ensures AllFresh(START, ops + more) && AllHonest(START, ops + more)
    ensures Undisturbed(Run(START, ops + more), task)
    ensures Get(Run(START, ops + more).shared.tasks, task).value.status == COMPLETED
  {
    var m := Run(START, ops);
    var spec := Get(m.shared.tasks, task).value.spec;
    RunReachable(START, ops, task);
    RunKept(START, ops, task);
    var first, m1 := WorkFinished(m, task, spec);
    var second, m2 := AllReported(m1, task, spec);
    LeadsThrough(m, first, m1, second, m2);
    more := first + second;
    RunConcat(START, ops, more);
  }
}
