// No slice of a task is lost: it is still with its submission, queued, in the
// hands of an assignment, recorded as assigned, or reported.
module SliceTracking {
  import opened Protocol
  import opened Dicts
  import opened SliceIds
  import opened DispatcherModel
  import Conservation
  import Shard
  import TaskQueue

  /** The thread will enqueue, put back or hand out the slice. */
  predicate Carries(t: Thread, slice: TaskSpec) {
    match t
    case Attaching(spec) => slice in Shard.ShardTask(spec)
    case Enqueuing(rest) => slice in rest
    case Scanning(_, _, skipped) => slice in skipped
    case PuttingBack(rest) => slice in rest
    case Holding(_, spec) => slice == spec
    case _ => false
  }

  predicate Carried(threads: seq<Thread>, slice: TaskSpec) {
    threads != [] && (Carries(threads[0], slice) || Carried(threads[1..], slice))
  }

  predicate InQueue(q: seq<TaskQueue.Keyed>, slice: TaskSpec) {
    q != [] && (q[0].spec == slice || InQueue(q[1..], slice))
  }

  predicate OnRecord(t: Task, slice: TaskSpec) {
    Has(t.assignments, slice.taskId) || Has(t.partials, slice.taskId)
  }

  predicate Tracked(m: Machine, task: string, slice: TaskSpec) {
    || Carried(m.threads, slice)
    || InQueue(m.shared.queue, slice)
    || (Has(m.shared.tasks, task) && OnRecord(Get(m.shared.tasks, task).value, slice))
  }

  /** Every slice of every task is tracked. */
  ghost predicate AllTracked(m: Machine) {
    forall task, slice :: IsSlice(m, task, slice) ==> Tracked(m, task, slice)
  }

  predicate IsSlice(m: Machine, task: string, slice: TaskSpec) {
    Has(m.shared.tasks, task) && slice in Shard.ShardTask(Get(m.shared.tasks, task).value.spec)
  }

  /** The slices of a task are attached, or its submission is about to attach them. */
  ghost predicate Attachments(m: Machine) {
    && (forall i :: 0 <= i < |m.threads| && m.threads[i].Attaching? ==> Belongs(m.shared.tasks, m.threads[i].spec))
    && (forall task :: Has(m.shared.tasks, task) ==> SlicesPlaced(Get(m.shared.tasks, task).value, m.threads))
  }

  predicate SlicesPlaced(t: Task, threads: seq<Thread>) {
    t.slicesById == ById(Shard.ShardTask(t.spec)) || Attaching(t.spec) in threads
  }

  predicate Belongs(tasks: Dict<Task>, spec: TaskSpec) {
    Has(tasks, spec.taskId) && Get(tasks, spec.taskId).value.spec == spec
  }

  /** A scan that finds a match has skipped nothing. */
  predicate TakesHead(m: Machine, op: Op) {
    op.Advance? && op.thread < |m.threads| && m.threads[op.thread].Scanning? && m.shared.queue != [] &&
    Capable(m.shared.queue[0].spec, m.threads[op.thread].capabilities)
    ==> m.threads[op.thread].skipped == []
  }

  predicate AllTakeHead(m: Machine, ops: seq<Op>)
    decreases ops
  {
    ops == [] || (TakesHead(m, ops[0]) && AllTakeHead(Step(m, ops[0]), ops[1..]))
  }

  // ---------------------------------------------------------------- lists

  lemma {:induction false} CarriedStarted(threads: seq<Thread>, t: Thread, slice: TaskSpec)
    ensures Carried(threads + [t], slice) <==> Carried(threads, slice) || Carries(t, slice)
  {
    if threads == [] {
      assert threads + [t] == [t];
      assert !Carried([], slice);
      assert Carried([t], slice) <==> Carries(t, slice);
    } else {
      CarriedStarted(threads[1..], t, slice);
      assert (threads + [t])[1..] == threads[1..] + [t];
    }
  }

  lemma {:induction false} CarriedMoved(threads: seq<Thread>, i: nat, t: Thread, slice: TaskSpec)
    requires i < |threads|
    ensures Carries(t, slice) ==> Carried(threads[i := t], slice)
    ensures !Carries(threads[i], slice) && Carried(threads, slice) ==> Carried(threads[i := t], slice)
  {
    if i == 0 {
      assert threads[i := t][1..] == threads[1..];
    } else {
      CarriedMoved(threads[1..], i - 1, t, slice);
      assert threads[i := t][1..] == threads[1..][i - 1 := t];
    }
  }

  lemma {:induction false} CarriedBy(threads: seq<Thread>, t: Thread, slice: TaskSpec)
    requires t in threads && Carries(t, slice)
    ensures Carried(threads, slice)
  {
    if threads[0] != t {
      CarriedBy(threads[1..], t, slice);
    }
  }

  lemma {:induction false} InQueueInsert(q: seq<TaskQueue.Keyed>, e: TaskQueue.Keyed, slice: TaskSpec)
    ensures InQueue(TaskQueue.Insert(q, e), slice) <==> InQueue(q, slice) || e.spec == slice
  {
    if q == [] || e.key < q[0].key {
      assert ([e] + q)[1..] == q;
    } else {
      InQueueInsert(q[1..], e, slice);
      assert TaskQueue.Insert(q, e)[1..] == TaskQueue.Insert(q[1..], e);
    }
  }

  lemma InQueueEnqueued(q: seq<TaskQueue.Keyed>, spec: TaskSpec, slice: TaskSpec)
    ensures InQueue(TaskQueue.Enqueued(q, spec), slice) <==> InQueue(q, slice) || spec == slice
  {
    InQueueInsert(q, TaskQueue.Keyed(spec.dispatchSpec.priority, spec), slice);
  }

  lemma {:induction false} ByIdFinds(slices: seq<TaskSpec>, i: nat)
    requires i < |slices|
    requires forall j :: 0 <= j < |slices| && j != i ==> slices[j].taskId != slices[i].taskId
    ensures Get(ById(slices), slices[i].taskId) == Some(slices[i])
  {
    if i < |slices| - 1 {
      ByIdFinds(slices[..|slices| - 1], i);
    }
  }

  /** A slice can be found under its id. */
  lemma SliceById(spec: TaskSpec, slice: TaskSpec)
    requires slice in Shard.ShardTask(spec)
    ensures Get(ById(Shard.ShardTask(spec)), slice.taskId) == Some(slice)
  {
    var slices := Shard.ShardTask(spec);
    var i :| 0 <= i < |slices| && slices[i] == slice;
    Shard.ShardIds(spec, i);
    ByIdFinds(slices, i);
  }

  lemma SliceRouted(spec: TaskSpec, slice: TaskSpec)
    requires slice in Shard.ShardTask(spec) && !HasMarker(spec.taskId)
    ensures Parent(slice.taskId) == spec.taskId
  {
    var slices := Shard.ShardTask(spec);
    var i :| 0 <= i < |slices| && slices[i] == slice;
    Shard.ShardIds(spec, i);
  }

  // ---------------------------------------------------------------- timeouts

  lemma {:induction false} ReclaimedOrKept(assignments: Dict<string>, slicesById: Dict<TaskSpec>, worker: string,
      slice: TaskSpec)
    requires Has(assignments, slice.taskId) && Get(slicesById, slice.taskId) == Some(slice)
    ensures slice in Reclaimed(assignments, slicesById, worker) || Has(WithoutWorker(assignments, worker), slice.taskId)
  {
    if assignments[0].key != slice.taskId {
      ReclaimedOrKept(assignments[1..], slicesById, worker, slice);
    }
  }

  lemma {:induction false} ReclaimedByTask(tasks: Dict<Task>, worker: string, task: string, slice: TaskSpec)
    requires Has(tasks, task)
    requires slice in Reclaimed(Get(tasks, task).value.assignments, Get(tasks, task).value.slicesById, worker)
    ensures slice in AllReclaimed(tasks, worker)
  {
    if tasks[0].key != task {
      ReclaimedByTask(tasks[1..], worker, task, slice);
    }
  }

  lemma TimeoutTracks(m: Machine, worker: string, task: string, slice: TaskSpec)
    requires Attachments(m) && IsSlice(m, task, slice) && Tracked(m, task, slice)
    ensures Tracked(Step(m, Timeout(worker)), task, slice)
  {
    var t := Get(m.shared.tasks, task).value;
    CarriedStarted(m.threads, Enqueuing(AllReclaimed(m.shared.tasks, worker)), slice);
    if Has(t.assignments, slice.taskId) {
      if Attaching(t.spec) in m.threads {
        CarriedBy(m.threads, Attaching(t.spec), slice);
      } else {
        SliceById(t.spec, slice);
        ReclaimedOrKept(t.assignments, t.slicesById, worker, slice);
        if slice in Reclaimed(t.assignments, t.slicesById, worker) {
          ReclaimedByTask(m.shared.tasks, worker, task, slice);
        }
      }
    }
  }

  // ---------------------------------------------------------------- steps

  /** Records only grow, except by timeouts. */
  predicate RecordsGrow(s: Shared, s': Shared, task: string, slice: TaskSpec) {
    Has(s.tasks, task) ==>
      && Has(s'.tasks, task) && Get(s'.tasks, task).value.spec == Get(s.tasks, task).value.spec
      && (OnRecord(Get(s.tasks, task).value, slice) ==> OnRecord(Get(s'.tasks, task).value, slice))
  }

  lemma AssignmentRecords(s: Shared, id: string, worker: string, task: string, slice: TaskSpec)
    ensures RecordsGrow(s, AssignmentRecorded(s, id, worker), task, slice)
  {
  }

  lemma SectionRecords(s: Shared, spec: TaskSpec, parent: string, retryable: bool, task: string, slice: TaskSpec)
    ensures RecordsGrow(s, Attached(s, spec), task, slice)
    ensures RecordsGrow(s, CompletionChecked(s, parent), task, slice)
    ensures RecordsGrow(s, RetryDecided(s, parent, retryable), task, slice)
  {
  }

  lemma AdvancedRecords(m: Machine, i: nat, task: string, slice: TaskSpec)
    requires i < |m.threads|
    ensures RecordsGrow(m.shared, Advanced(m, i).shared, task, slice)
  {
    match m.threads[i]
    case Attaching(spec) => SectionRecords(m.shared, spec, "", false, task, slice);
    case Holding(worker, spec) => AssignmentRecords(m.shared, spec.taskId, worker, task, slice);
    case CheckingCompletion(parent) => SectionRecords(m.shared, slice, parent, false, task, slice);
    case DecidingRetry(parent, retryable) => SectionRecords(m.shared, slice, parent, retryable, task, slice);
    case _ =>
  }

  /** Moving one thread keeps the slice tracked if the thread lets go of it only to the queue
      or to the records. */
  lemma MovedTracks(m: Machine, i: nat, m': Machine, task: string, slice: TaskSpec)
    requires i < |m.threads| && |m'.threads| == |m.threads| && m'.threads == m.threads[i := m'.threads[i]]
    requires Tracked(m, task, slice) && IsSlice(m, task, slice) && RecordsGrow(m.shared, m'.shared, task, slice)
    requires InQueue(m.shared.queue, slice) ==> InQueue(m'.shared.queue, slice) || Carries(m'.threads[i], slice)
    requires Carries(m.threads[i], slice) ==>
      Carries(m'.threads[i], slice) || InQueue(m'.shared.queue, slice) ||
        OnRecord(Get(m'.shared.tasks, task).value, slice)
    ensures Tracked(m', task, slice)
  {
    CarriedMoved(m.threads, i, m'.threads[i], slice);
    if Carried(m.threads, slice) && Carries(m.threads[i], slice) {
      CarriedMoved(m.threads, i, m'.threads[i], slice);
    }
  }

  lemma ScannedTracks(m: Machine, i: nat, task: string, slice: TaskSpec)
    requires i < |m.threads| && m.threads[i].Scanning? && TakesHead(m, Advance(i))
    requires IsSlice(m, task, slice) && Tracked(m, task, slice)
    ensures Tracked(Scanned(m, i), task, slice)
  {
    MovedTracks(m, i, Scanned(m, i), task, slice);
  }

  lemma EnqueuesTracks(m: Machine, i: nat, task: string, slice: TaskSpec)
    requires i < |m.threads| && (m.threads[i].Enqueuing? || m.threads[i].PuttingBack?)
    requires IsSlice(m, task, slice) && Tracked(m, task, slice)
    ensures Tracked(Advanced(m, i), task, slice)
  {
    var rest := m.threads[i].rest;
    if rest != [] {
      InQueueEnqueued(m.shared.queue, rest[0], slice);
    }
    MovedTracks(m, i, Advanced(m, i), task, slice);
  }

  lemma HoldingTracks(m: Machine, i: nat, task: string, slice: TaskSpec)
    requires i < |m.threads| && m.threads[i].Holding? && Conservation.WellNamed(m)
    requires IsSlice(m, task, slice) && Tracked(m, task, slice)
    ensures Tracked(Advanced(m, i), task, slice)
  {
    SliceRouted(Get(m.shared.tasks, task).value.spec, slice);
    AdvancedRecords(m, i, task, slice);
    MovedTracks(m, i, Advanced(m, i), task, slice);
  }

  lemma OtherTracks(m: Machine, i: nat, task: string, slice: TaskSpec)
    requires i < |m.threads|
    requires m.threads[i].Done? || m.threads[i].Attaching? || m.threads[i].CheckingCompletion? ||
      m.threads[i].DecidingRetry?
    requires IsSlice(m, task, slice) && Tracked(m, task, slice)
    ensures Tracked(Advanced(m, i), task, slice)
  {
    AdvancedRecords(m, i, task, slice);
    if m.threads[i].DecidingRetry? && Retries(m.shared, m.threads[i].parent, m.threads[i].retryable) {
      InQueueEnqueued(m.shared.queue, Get(m.shared.tasks, m.threads[i].parent).value.spec, slice);
    }
    MovedTracks(m, i, Advanced(m, i), task, slice);
  }

  lemma AdvanceTracks(m: Machine, i: nat, task: string, slice: TaskSpec)
    requires i < |m.threads| && Conservation.WellNamed(m) && TakesHead(m, Advance(i))
    requires IsSlice(m, task, slice) && Tracked(m, task, slice)
    ensures Tracked(Advanced(m, i), task, slice)
  {
    if m.threads[i].Scanning? {
      ScannedTracks(m, i, task, slice);
    } else if m.threads[i].Enqueuing? || m.threads[i].PuttingBack? {
      EnqueuesTracks(m, i, task, slice);
    } else if m.threads[i].Holding? {
      HoldingTracks(m, i, task, slice);
    } else {
      OtherTracks(m, i, task, slice);
    }
  }

  lemma CallTracks(m: Machine, op: Op, task: string, slice: TaskSpec)
    requires !op.Advance? && !op.Timeout? && Conservation.Fresh(m, op)
    requires IsSlice(m, task, slice) && Tracked(m, task, slice)
    ensures Tracked(Step(m, op), task, slice)
  {
    match op
    case Submit(spec) => CarriedStarted(m.threads, Attaching(spec), slice);
    case Assign(worker, capabilities) => CarriedStarted(m.threads, Scanning(worker, capabilities, []), slice);
    case Complete(id, _) => CarriedStarted(m.threads, CheckingCompletion(Parent(id)), slice);
    case Fail(id, retryable) => CarriedStarted(m.threads, DecidingRetry(Parent(id), retryable), slice);
    case Cancel(_) =>
  }

  /** A new task's slices are with its submission. */
  lemma SubmitTracks(m: Machine, spec: TaskSpec, slice: TaskSpec)
    requires slice in Shard.ShardTask(spec)
    ensures Tracked(Step(m, Submit(spec)), spec.taskId, slice)
  {
    CarriedStarted(m.threads, Attaching(spec), slice);
  }

  lemma OldOrSubmitted(m: Machine, op: Op, task: string)
    requires Has(Step(m, op).shared.tasks, task) && Conservation.Fresh(m, op)
    ensures SameTask(m.shared, Step(m, op).shared, task) || (op.Submit? && op.spec.taskId == task)
  {
    if op.Advance? && op.thread < |m.threads| {
      AdvancedKeeps(m, op.thread, task);
    }
  }

  lemma StepTracks(m: Machine, op: Op)
    requires Conservation.WellNamed(m) && Attachments(m) && Conservation.Fresh(m, op) && TakesHead(m, op)
    requires AllTracked(m)
    ensures AllTracked(Step(m, op))
  {
    forall task, slice | IsSlice(Step(m, op), task, slice)
      ensures Tracked(Step(m, op), task, slice)
    {
      OldOrSubmitted(m, op, task);
      if SameTask(m.shared, Step(m, op).shared, task) {
        assert IsSlice(m, task, slice);
        if op.Timeout? {
          TimeoutTracks(m, op.worker, task, slice);
        } else if !op.Advance? {
          CallTracks(m, op, task, slice);
        } else if op.thread < |m.threads| {
          AdvanceTracks(m, op.thread, task, slice);
        }
      } else {
        SubmitTracks(m, op.spec, slice);
      }
    }
  }

  lemma AttachingThreads(m: Machine, i: nat)
    requires i < |m.threads| && !m.threads[i].Attaching?
    ensures forall k :: 0 <= k < |m.threads| && Advanced(m, i).threads[k].Attaching? ==>
      Advanced(m, i).threads[k] == m.threads[k]
    ensures forall t: Thread :: t.Attaching? && t in m.threads ==> t in Advanced(m, i).threads
  {
    forall t: Thread | t.Attaching? && t in m.threads
      ensures t in Advanced(m, i).threads
    {
      var k :| 0 <= k < |m.threads| && m.threads[k] == t;
      assert Advanced(m, i).threads[k] == t;
    }
  }

  lemma AttachedSlices(m: Machine, i: nat, task: string)
    requires i < |m.threads| && m.threads[i].Attaching? && Attachments(m) && Conservation.WellNamed(m) &&
      Has(m.shared.tasks, task)
    ensures SameTask(m.shared, Advanced(m, i).shared, task)
    ensures SlicesPlaced(Get(Advanced(m, i).shared.tasks, task).value, Advanced(m, i).threads)
  {
    var spec, t := m.threads[i].spec, Get(m.shared.tasks, task).value;
    assert Belongs(m.shared.tasks, spec);
    assert SlicesPlaced(t, m.threads);
    if t.spec != spec && Attaching(t.spec) in m.threads {
      var k :| 0 <= k < |m.threads| && m.threads[k] == Attaching(t.spec);
      assert Advanced(m, i).threads[k] == Attaching(t.spec);
    }
  }

  lemma AttachingAttachments(m: Machine, i: nat)
    requires Attachments(m) && Conservation.WellNamed(m) && i < |m.threads| && m.threads[i].Attaching?
    ensures Attachments(Advanced(m, i))
  {
    var m' := Advanced(m, i);
    forall task | Has(m'.shared.tasks, task)
      ensures SlicesPlaced(Get(m'.shared.tasks, task).value, m'.threads)
    {
      AdvancedKeeps(m, i, task);
      AttachedSlices(m, i, task);
    }
    forall k | 0 <= k < |m'.threads| && m'.threads[k].Attaching?
      ensures Belongs(m'.shared.tasks, m'.threads[k].spec)
    {
      assert m'.threads[k] == m.threads[k];
      AttachedSlices(m, i, m.threads[k].spec.taskId);
    }
  }

  lemma OtherAttachments(m: Machine, i: nat)
    requires Attachments(m) && i < |m.threads| && !m.threads[i].Attaching?
    ensures Attachments(Advanced(m, i))
  {
    var m' := Advanced(m, i);
    AttachingThreads(m, i);
    forall task | Has(m'.shared.tasks, task)
      ensures SlicesPlaced(Get(m'.shared.tasks, task).value, m'.threads)
    {
      AdvancedSubmission(m, i, task);
      assert SlicesPlaced(Get(m.shared.tasks, task).value, m.threads);
    }
    forall k | 0 <= k < |m'.threads| && m'.threads[k].Attaching?
      ensures Belongs(m'.shared.tasks, m'.threads[k].spec)
    {
      AdvancedSubmission(m, i, m.threads[k].spec.taskId);
      assert Belongs(m.shared.tasks, m.threads[k].spec);
    }
  }

  lemma CallAttachments(m: Machine, op: Op)
    requires Attachments(m) && Conservation.Fresh(m, op) && !op.Advance?
    ensures Attachments(Step(m, op))
  {
    if op.Submit? {
      SubmitAttachments(m, op.spec);
    } else {
      LaterAttachments(m, op);
    }
  }

  lemma SubmitAttachments(m: Machine, spec: TaskSpec)
    requires Attachments(m) && Conservation.Fresh(m, Submit(spec))
    ensures Attachments(Step(m, Submit(spec)))
  {
    var m' := Step(m, Submit(spec));
    assert forall t :: t in m.threads ==> t in m'.threads;
    assert m'.threads[|m.threads|] == Attaching(spec);
  }

  lemma LaterAttachments(m: Machine, op: Op)
    requires Attachments(m) && !op.Advance? && !op.Submit?
    ensures Attachments(Step(m, op))
  {
    var m' := Step(m, op);
    assert forall t :: t in m.threads ==> t in m'.threads;
    forall task | Has(m'.shared.tasks, task)
      ensures SlicesPlaced(Get(m'.shared.tasks, task).value, m'.threads)
    {
      assert SlicesPlaced(Get(m.shared.tasks, task).value, m.threads);
    }
  }

  lemma StepAttachments(m: Machine, op: Op)
    requires Attachments(m) && Conservation.WellNamed(m) && Conservation.Fresh(m, op)
    ensures Attachments(Step(m, op))
  {
    if !op.Advance? {
      CallAttachments(m, op);
    } else if op.thread < |m.threads| {
      if m.threads[op.thread].Attaching? {
        AttachingAttachments(m, op.thread);
      } else {
        OtherAttachments(m, op.thread);
      }
    }
  }

  lemma {:induction false} RunTracks(m: Machine, ops: seq<Op>)
    requires Conservation.WellNamed(m) && Attachments(m) && AllTracked(m)
    requires Conservation.AllFresh(m, ops) && AllTakeHead(m, ops)
    ensures AllTracked(Run(m, ops))
    decreases ops
  {
    if ops != [] {
      Conservation.StepWellNamed(m, ops[0]);
      StepAttachments(m, ops[0]);
      StepTracks(m, ops[0]);
      RunTracks(Step(m, ops[0]), ops[1..]);
    }
  }

  /** In every run in which no task id is resubmitted and no scan matches after skipping, each
      slice of each task is with its submission, queued, in a thread's hands, assigned or reported. */
  lemma NoSliceLost(ops: seq<Op>, task: string, slice: TaskSpec)
    requires Conservation.AllFresh(START, ops) && AllTakeHead(START, ops)
    requires IsSlice(Run(START, ops), task, slice)
    ensures Tracked(Run(START, ops), task, slice)
  {
    RunTracks(START, ops);
  }
}
