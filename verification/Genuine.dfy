// What is in circulation: slices of submitted tasks and whole tasks under
// retry, and nothing else.
module Genuine {
  import opened Protocol
  import opened Dicts
  import opened SliceIds
  import opened DispatcherModel
  import opened Conservation
  import opened SliceTracking
  import Provenance
  import Shard

  /** The spec is queued, or some thread has it. */
  predicate Circulates(m: Machine, x: TaskSpec) {
    Carried(m.threads, x) || InQueue(m.shared.queue, x)
  }

  /** The spec is that of the task its id is routed to, or a slice of it. */
  predicate Own(tasks: Dict<Task>, x: TaskSpec) {
    Has(tasks, Parent(x.taskId)) &&
    (x == Get(tasks, Parent(x.taskId)).value.spec || x in Shard.ShardTask(Get(tasks, Parent(x.taskId)).value.spec))
  }

  /** What is found under slice ids are slices of the task. */
  ghost predicate SlicesOwn(m: Machine) {
    && DistinctKeys(m.shared.tasks)
    && forall task, id :: Has(m.shared.tasks, task) && Has(Get(m.shared.tasks, task).value.slicesById, id) ==>
         var t := Get(m.shared.tasks, task).value;
         Get(t.slicesById, id).value in Shard.ShardTask(t.spec)
  }

  ghost predicate AllOwn(m: Machine) {
    forall x :: Circulates(m, x) ==> Own(m.shared.tasks, x)
  }

  lemma OwnSlice(m: Machine, task: string, x: TaskSpec)
    requires WellNamed(m) && IsSlice(m, task, x)
    ensures Own(m.shared.tasks, x)
  {
    SliceRouted(Get(m.shared.tasks, task).value.spec, x);
  }

  lemma OwnWhole(m: Machine, task: string)
    requires WellNamed(m) && Has(m.shared.tasks, task)
    ensures Own(m.shared.tasks, Get(m.shared.tasks, task).value.spec)
  {
    SelfRoutedIff(task);
  }

  // ---------------------------------------------------------------- what stays

  lemma StepSame(m: Machine, op: Op, task: string)
    requires Fresh(m, op) && Has(m.shared.tasks, task)
    ensures SameTask(m.shared, Step(m, op).shared, task)
  {
    if op.Advance? && op.thread < |m.threads| {
      AdvancedKeeps(m, op.thread, task);
    }
  }

  lemma OwnStays(m: Machine, op: Op, x: TaskSpec)
    requires Fresh(m, op) && Own(m.shared.tasks, x)
    ensures Own(Step(m, op).shared.tasks, x)
  {
    StepSame(m, op, Parent(x.taskId));
  }

  lemma {:induction false} CarriedFrom(threads: seq<Thread>, i: nat, t: Thread, x: TaskSpec)
    requires i < |threads| && Carried(threads[i := t], x)
    ensures Carried(threads, x) || Carries(t, x)
  {
    if i == 0 {
      assert threads[i := t][1..] == threads[1..];
    } else {
      assert threads[i := t][1..] == threads[1..][i - 1 := t];
      if !Carries(threads[0], x) {
        CarriedFrom(threads[1..], i - 1, t, x);
      }
    }
  }

  /** The thread that moved and the queue have nothing new. */
  lemma MovedCirculates(m: Machine, i: nat, x: TaskSpec)
    requires i < |m.threads| && Circulates(Advanced(m, i), x)
    requires Advanced(m, i).threads == m.threads[i := Advanced(m, i).threads[i]]
    requires Carries(Advanced(m, i).threads[i], x) ==> Circulates(m, x)
    requires InQueue(Advanced(m, i).shared.queue, x) ==> Circulates(m, x)
    ensures Circulates(m, x)
  {
    if Carried(Advanced(m, i).threads, x) {
      CarriedFrom(m.threads, i, Advanced(m, i).threads[i], x);
    }
  }

  lemma CarriedAt(m: Machine, i: nat, x: TaskSpec)
    requires i < |m.threads| && Carries(m.threads[i], x)
    ensures Circulates(m, x)
  {
    CarriedBy(m.threads, m.threads[i], x);
  }

  // ---------------------------------------------------------------- steps

  lemma EnqueuesOwn(m: Machine, i: nat, x: TaskSpec)
    requires i < |m.threads| && (m.threads[i].Enqueuing? || m.threads[i].PuttingBack?)
    requires Circulates(Advanced(m, i), x)
    ensures Circulates(m, x)
  {
    var rest := m.threads[i].rest;
    if x in rest {
      CarriedAt(m, i, x);
    }
    if rest != [] {
      InQueueEnqueued(m.shared.queue, rest[0], x);
    }
    MovedCirculates(m, i, x);
  }

  lemma ScannedOwn(m: Machine, i: nat, x: TaskSpec)
    requires i < |m.threads| && m.threads[i].Scanning? && Circulates(Advanced(m, i), x)
    ensures Circulates(m, x)
  {
    if x in m.threads[i].skipped {
      CarriedAt(m, i, x);
    }
    MovedCirculates(m, i, x);
  }

  lemma AttachedOwn(m: Machine, i: nat, x: TaskSpec)
    requires i < |m.threads| && m.threads[i].Attaching? && Circulates(Advanced(m, i), x)
    ensures Circulates(m, x)
  {
    if x in Shard.ShardTask(m.threads[i].spec) {
      CarriedAt(m, i, x);
    }
    MovedCirculates(m, i, x);
  }

  lemma RetriedOwn(m: Machine, i: nat, x: TaskSpec)
    requires WellNamed(m) && i < |m.threads| && m.threads[i].DecidingRetry? && Circulates(Advanced(m, i), x)
    ensures Circulates(m, x) || Own(m.shared.tasks, x)
  {
    var parent := m.threads[i].parent;
    if Retries(m.shared, parent, m.threads[i].retryable) {
      OwnWhole(m, parent);
      InQueueEnqueued(m.shared.queue, Get(m.shared.tasks, parent).value.spec, x);
    }
    if !Own(m.shared.tasks, x) {
      MovedCirculates(m, i, x);
    }
  }

  lemma AdvancedOwn(m: Machine, i: nat, x: TaskSpec)
    requires WellNamed(m) && i < |m.threads| && Circulates(Advanced(m, i), x)
    ensures Circulates(m, x) || Own(m.shared.tasks, x)
  {
    match m.threads[i]
    case Attaching(_) => AttachedOwn(m, i, x);
    case Enqueuing(_) => EnqueuesOwn(m, i, x);
    case PuttingBack(_) => EnqueuesOwn(m, i, x);
    case Scanning(_, _, _) => ScannedOwn(m, i, x);
    case DecidingRetry(_, _) => RetriedOwn(m, i, x);
    case _ => MovedCirculates(m, i, x);
  }

  lemma ReclaimedOwn(m: Machine, worker: string, x: TaskSpec)
    requires WellNamed(m) && SlicesOwn(m) && x in AllReclaimed(m.shared.tasks, worker)
    ensures Own(m.shared.tasks, x)
  {
    var i := Provenance.ReclaimedFrom(m.shared.tasks, worker, x);
    var task, t := m.shared.tasks[i].key, m.shared.tasks[i].value;
    GetAt(m.shared.tasks, i);
    Provenance.ReclaimedIsSlice(t.assignments, t.slicesById, worker, x);
    var id :| Get(t.slicesById, id) == Some(x);
    OwnSlice(m, task, x);
  }

  /** A call starts with nothing new, or with the slices of the task it submits or takes back. */
  lemma CallOwn(m: Machine, op: Op, x: TaskSpec)
    requires WellNamed(m) && SlicesOwn(m) && Fresh(m, op) && !op.Advance? && Circulates(Step(m, op), x)
    ensures Circulates(m, x) || Own(m.shared.tasks, x) || (op.Submit? && x in Shard.ShardTask(op.spec))
  {
    match op
    case Submit(spec) => CarriedStarted(m.threads, Attaching(spec), x);
    case Assign(worker, capabilities) => CarriedStarted(m.threads, Scanning(worker, capabilities, []), x);
    case Complete(id, _) => CarriedStarted(m.threads, CheckingCompletion(Parent(id)), x);
    case Fail(id, retryable) => CarriedStarted(m.threads, DecidingRetry(Parent(id), retryable), x);
    case Timeout(worker) =>
      CarriedStarted(m.threads, Enqueuing(AllReclaimed(m.shared.tasks, worker)), x);
      if x in AllReclaimed(m.shared.tasks, worker) {
        ReclaimedOwn(m, worker, x);
      }
    case Cancel(_) =>
  }

  lemma StepOwn(m: Machine, op: Op, x: TaskSpec)
    requires WellNamed(m) && SlicesOwn(m) && AllOwn(m) && Fresh(m, op) && Circulates(Step(m, op), x)
    ensures Own(Step(m, op).shared.tasks, x)
  {
    if op.Advance? {
      if op.thread < |m.threads| {
        AdvancedOwn(m, op.thread, x);
      }
    } else {
      CallOwn(m, op, x);
    }
    if Own(m.shared.tasks, x) {
      OwnStays(m, op, x);
    } else {
      StepWellNamed(m, op);
      OwnSlice(Step(m, op), op.spec.taskId, x);
    }
  }

  // ---------------------------------------------------------------- slices on record

  lemma StepSlicesOwn(m: Machine, op: Op)
    requires WellNamed(m) && Attachments(m) && SlicesOwn(m) && Fresh(m, op)
    ensures SlicesOwn(Step(m, op))
  {
    var m' := Step(m, op);
    Provenance.StepDistinct(m, op);
    forall task, id | Has(m'.shared.tasks, task) && Has(Get(m'.shared.tasks, task).value.slicesById, id)
      ensures Get(Get(m'.shared.tasks, task).value.slicesById, id).value in
        Shard.ShardTask(Get(m'.shared.tasks, task).value.spec)
    {
      SliceOwnAfter(m, op, task, id);
    }
  }

  lemma SliceOwnAfter(m: Machine, op: Op, task: string, id: string)
    requires WellNamed(m) && Attachments(m) && SlicesOwn(m) && Fresh(m, op)
    requires var tasks := Step(m, op).shared.tasks; Has(tasks, task) && Has(Get(tasks, task).value.slicesById, id)
    ensures var t := Get(Step(m, op).shared.tasks, task).value;
            Get(t.slicesById, id).value in Shard.ShardTask(t.spec)
  {
    if op.Advance? && op.thread < |m.threads| {
      if m.threads[op.thread].Attaching? {
        var spec := m.threads[op.thread].spec;
        AttachingTasks(m, op.thread);
        assert Belongs(m.shared.tasks, spec);
        if task == spec.taskId {
          Provenance.ByIdMember(Shard.ShardTask(spec), id);
        }
      } else {
        AdvancedSubmission(m, op.thread, task);
      }
    }
  }

  lemma {:induction false} RunOwn(m: Machine, ops: seq<Op>)
    requires WellNamed(m) && Attachments(m) && SlicesOwn(m) && AllOwn(m) && AllFresh(m, ops)
    ensures AllOwn(Run(m, ops))
    decreases ops
  {
    if ops != [] {
      StepWellNamed(m, ops[0]);
      StepAttachments(m, ops[0]);
      StepSlicesOwn(m, ops[0]);
      forall x | Circulates(Step(m, ops[0]), x)
        ensures Own(Step(m, ops[0]).shared.tasks, x)
      {
        StepOwn(m, ops[0], x);
      }
      RunOwn(Step(m, ops[0]), ops[1..]);
    }
  }

  /** In every run in which no task id is resubmitted, whatever workers report and however calls
      interleave: all that is queued, set aside, put back or handed to a worker is a slice of the task
      its id is routed to, or that task itself, unaltered. */
  lemma OnlyOwnWork(ops: seq<Op>, x: TaskSpec)
    requires AllFresh(START, ops) && Circulates(Run(START, ops), x)
    ensures Own(Run(START, ops).shared.tasks, x)
  {
    RunOwn(START, ops);
  }
}
