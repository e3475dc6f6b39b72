// Where completion stops being exact: duplicate and overtaken reports, and
// what undoes a completed task.
module CompletionLimits {
  import opened Protocol
  import opened Dicts
  import opened Seqs
  import opened SliceIds
  import opened DispatcherModel
  import opened Conservation
  import opened Provenance
  import opened Completion
  import Shard
  import SliceTracking

  lemma {:induction false} RunLogged(m: Machine, ops: seq<Op>, task: string)
    requires Logged(m, task) && AllFresh(m, ops)
    ensures Logged(Run(m, ops), task)
    decreases ops
  {
    if ops != [] {
      StepLogged(m, ops[0], task);
      RunLogged(Step(m, ops[0]), ops[1..], task);
    }
  }

  /** Whatever the workers report: when a check completes a task with attached slices, the results of all its slices
      are there if and only if no counted report was a duplicate or of no slice of the task. */
  lemma CompleteResultsIff(ops: seq<Op>, i: nat, task: string)
    requires AllFresh(START, ops) && i < |Run(START, ops).threads|
    requires Run(START, ops).threads[i] == CheckingCompletion(task)
    requires AttachedAt(Run(START, ops).shared, task)
    requires Get(Run(START, ops).shared.tasks, task).value.completed ==
      Get(Run(START, ops).shared.tasks, task).value.nSlices
    ensures var m := Run(START, ops);
            var m' := Advanced(m, i);
            && Has(m'.shared.tasks, task) && Get(m'.shared.tasks, task).value.status == COMPLETED
            && ((forall id :: id in SliceIdsOf(m, task) ==> Has(Get(m'.shared.tasks, task).value.partials, id)) <==>
                NoRepeats(Reports(m, task)) && forall id :: id in Reports(m, task) ==> id in SliceIdsOf(m, task))
  {
    RunLogged(START, ops, task);
    var m := Run(START, ops);
    SliceIdsDiffer(Get(m.shared.tasks, task).value.spec);
    CoverIff(Reports(m, task), SliceIdsOf(m, task));
  }

  /** Until its slices are attached a task counts as one slice: a report for it that is checked
      before then completes the task, if and only if it is the first one. */
  lemma EarlyReportCompletesIff(m: Machine, id: string, result: Outcome)
    requires Has(m.shared.tasks, Parent(id))
    requires var t := Get(m.shared.tasks, Parent(id)).value; t.nSlices == 1 && t.slices == [] && t.status != COMPLETED
    ensures var m' := Run(m, [Complete(id, result), Advance(|m.threads|)]);
            && Has(m'.shared.tasks, Parent(id))
            && (Get(m'.shared.tasks, Parent(id)).value.status == COMPLETED <==>
                Get(m.shared.tasks, Parent(id)).value.completed == 0)
  {
    var op, op' := Complete(id, result), Advance(|m.threads|);
    RunTwo(m, op, op');
    StoredThenChecked(m, id, result);
  }

  lemma StoredThenChecked(m: Machine, id: string, result: Outcome)
    requires Has(m.shared.tasks, Parent(id))
    ensures Step(Step(m, Complete(id, result)), Advance(|m.threads|)).shared ==
      CompletionChecked(ResultStored(m.shared, id, result), Parent(id))
  {
    var m1 := Step(m, Complete(id, result));
    assert m1.threads[|m.threads|] == CheckingCompletion(Parent(id));
    RecordingTasks(m1, |m.threads|);
  }

  // ---------------------------------------------------------------- overtaken checks

  /** More reports than slices were counted, and no check saw the count equal. */
  ghost predicate Overshot(m: Machine, task: string) {
    && AttachedAt(m.shared, task)
    && SliceTracking.Attachments(m) && WellNamed(m)
    && var t := Get(m.shared.tasks, task).value;
       t.completed > t.nSlices && t.status != COMPLETED
  }

  lemma AdvancedOvershot(m: Machine, i: nat, task: string)
    requires Overshot(m, task) && i < |m.threads|
    ensures AttachedAt(Advanced(m, i).shared, task)
    ensures var t := Get(Advanced(m, i).shared.tasks, task).value; t.completed > t.nSlices && t.status != COMPLETED
  {
    if m.threads[i].Attaching? {
      assert SliceTracking.Belongs(m.shared.tasks, m.threads[i].spec);
    } else {
      AdvancedKeepsAttached(m, i, task);
      AdvancedKeeps(m, i, task);
      AdvancedReports(m, i, task);
      NotCompleted(m, i, task);
    }
  }

  lemma NotCompleted(m: Machine, i: nat, task: string)
    requires i < |m.threads| && !m.threads[i].Attaching? && Has(m.shared.tasks, task)
    requires var t := Get(m.shared.tasks, task).value; t.completed != t.nSlices && t.status != COMPLETED
    ensures Has(Advanced(m, i).shared.tasks, task) && Get(Advanced(m, i).shared.tasks, task).value.status != COMPLETED
  {
    if QueueOnly(m.threads[i]) {
      QueueOnlyTasks(m, i);
    } else {
      RecordingTasks(m, i);
    }
  }

  lemma StepOvershot(m: Machine, op: Op, task: string)
    requires Overshot(m, task) && Fresh(m, op)
    ensures Overshot(Step(m, op), task)
  {
    SliceTracking.StepAttachments(m, op);
    StepWellNamed(m, op);
    StepKeepsOvershot(m, op, task);
  }

  lemma StepKeepsOvershot(m: Machine, op: Op, task: string)
    requires Overshot(m, task) && Fresh(m, op)
    ensures AttachedAt(Step(m, op).shared, task)
    ensures var t := Get(Step(m, op).shared.tasks, task).value; t.completed > t.nSlices && t.status != COMPLETED
  {
    if !op.Advance? {
      CallOvershot(m, op, task);
    } else if op.thread < |m.threads| {
      AdvancedOvershot(m, op.thread, task);
    }
  }

  lemma CallOvershot(m: Machine, op: Op, task: string)
    requires Overshot(m, task) && Fresh(m, op) && !op.Advance?
    ensures AttachedAt(Step(m, op).shared, task)
    ensures var t := Get(Step(m, op).shared.tasks, task).value; t.completed > t.nSlices && t.status != COMPLETED
  {
    CallSubmission(m, op, task);
    CallKeepsCount(m, op, task);
  }

  lemma CallSubmission(m: Machine, op: Op, task: string)
    requires Has(m.shared.tasks, task) && Fresh(m, op) && !op.Advance?
    ensures SameSubmission(m.shared, Step(m, op).shared, task)
  {
  }

  lemma CallKeepsCount(m: Machine, op: Op, task: string)
    requires Has(m.shared.tasks, task) && Fresh(m, op) && !op.Advance? && Has(Step(m, op).shared.tasks, task)
    ensures Get(Step(m, op).shared.tasks, task).value.completed >= Get(m.shared.tasks, task).value.completed
    ensures Get(m.shared.tasks, task).value.status != COMPLETED ==>
      Get(Step(m, op).shared.tasks, task).value.status != COMPLETED
  {
  }

  /** Once more reports than slices are counted before a check, the task never completes. */
  lemma {:induction false} OvershotNeverCompletes(m: Machine, ops: seq<Op>, task: string)
    requires Overshot(m, task) && AllFresh(m, ops)
    ensures Has(Run(m, ops).shared.tasks, task) && Get(Run(m, ops).shared.tasks, task).value.status != COMPLETED
    decreases ops
  {
    if ops != [] {
      StepOvershot(m, ops[0], task);
      OvershotNeverCompletes(Step(m, ops[0]), ops[1..], task);
    }
  }

  /** The last missing slice reported twice, with both reports counted before either check, is
      enough for that. */
  lemma DoubleReportOvertakesCheck(m: Machine, id: string, first: Outcome, second: Outcome)
    requires SliceTracking.Attachments(m) && WellNamed(m) && AttachedAt(m.shared, Parent(id))
    requires var t := Get(m.shared.tasks, Parent(id)).value; t.completed == t.nSlices - 1 && t.status != COMPLETED
    ensures Overshot(Run(m, [Complete(id, first), Complete(id, second)]), Parent(id))
  {
    var op, op' := Complete(id, first), Complete(id, second);
    var m1 := Step(m, op);
    RunTwo(m, op, op');
    SliceTracking.StepAttachments(m, op);
    StepWellNamed(m, op);
    SliceTracking.StepAttachments(m1, op');
    StepWellNamed(m1, op');
  }

  // ---------------------------------------------------------------- exactly when repeats do no harm

  /** A report is counted on top of a full count that no check has seen yet. */
  predicate Overtakes(m: Machine, op: Op, task: string) {
    && op.Complete? && Parent(op.id) == task && AttachedAt(m.shared, task)
    && var t := Get(m.shared.tasks, task).value;
       t.completed == t.nSlices && t.status != COMPLETED
  }

  /** Some step of the run overtook. */
  predicate Overtook(m: Machine, ops: seq<Op>, task: string)
    decreases ops
  {
    ops != [] && (Overtakes(m, ops[0], task) || Overtook(Step(m, ops[0]), ops[1..], task))
  }

  /** How count, status and pending checks of a task belong together, overtaken so far or not. */
  ghost predicate Settled(m: Machine, task: string, overtaken: bool) {
    match Get(m.shared.tasks, task)
    case None => !overtaken
    case Some(t) =>
      task !in m.log.disturbed ==>
        if !IsAttached(t) then t.completed == 0 && t.status != COMPLETED && !overtaken
        else t.nSlices >= 1 ==> CountSettled(t, CheckingCompletion(task) in m.threads, overtaken)
  }

  predicate CountSettled(t: Task, pending: bool, overtaken: bool) {
    && (t.completed < t.nSlices ==> t.status != COMPLETED && !overtaken)
    && (t.completed == t.nSlices ==> (t.status == COMPLETED || pending) && !overtaken)
    && (t.completed > t.nSlices ==> (t.status == COMPLETED <==> !overtaken))
  }

  lemma CompleteSettled(m: Machine, id: string, result: Outcome, task: string, overtaken: bool)
    requires Traceable(m) && Accounted(m) && Settled(m, task, overtaken) && id in m.log.handed
    ensures Settled(Step(m, Complete(id, result)), task, overtaken || Overtakes(m, Complete(id, result), task))
  {
    HandedKnown(m, id);
    var m' := Step(m, Complete(id, result));
    assert forall t :: t in m.threads ==> t in m'.threads;
    if Parent(id) == task {
      assert m'.threads[|m.threads|] == CheckingCompletion(task);
    }
  }

  lemma CheckSettled(m: Machine, i: nat, task: string, overtaken: bool)
    requires i < |m.threads| && m.threads[i] == CheckingCompletion(task) && Settled(m, task, overtaken)
    requires Prompted(m, task) && Logged(m, task)
    ensures Settled(Advanced(m, i), task, overtaken)
  {
    assert CheckingCompletion(task) in m.threads;
    RecordingTasks(m, i);
  }

  lemma OtherSettled(m: Machine, i: nat, task: string, overtaken: bool)
    requires WellNamed(m) && Traceable(m) && i < |m.threads| && m.threads[i] != CheckingCompletion(task)
    requires Settled(m, task, overtaken)
    ensures Settled(Advanced(m, i), task, overtaken)
  {
    AdvancedLog(m, i);
    AdvancedKeeps(m, i, task);
    if task !in m.log.disturbed {
      OtherProgress(m, i, task);
      assert KnownThread(m, m.threads[i]);
      AdvancedPersists(m, i, task);
    }
  }

  lemma CallSettled(m: Machine, op: Op, task: string, overtaken: bool)
    requires Fresh(m, op) && !op.Advance? && !op.Complete? && Settled(m, task, overtaken)
    ensures Settled(Step(m, op), task, overtaken)
  {
    assert forall t :: t in m.threads ==> t in Step(m, op).threads;
  }

  lemma StepSettled(m: Machine, op: Op, task: string, overtaken: bool)
    requires Reachable(m, task) && Fresh(m, op) && Honest(m, op) && Settled(m, task, overtaken)
    ensures Settled(Step(m, op), task, overtaken || Overtakes(m, op, task))
  {
    if op.Complete? {
      CompleteSettled(m, op.id, op.result, task, overtaken);
    } else if !op.Advance? {
      CallSettled(m, op, task, overtaken);
    } else if op.thread < |m.threads| {
      if m.threads[op.thread] == CheckingCompletion(task) {
        CheckSettled(m, op.thread, task, overtaken);
      } else {
        OtherSettled(m, op.thread, task, overtaken);
      }
    }
  }

  lemma {:induction false} RunSettled(m: Machine, ops: seq<Op>, task: string, overtaken: bool)
    requires Reachable(m, task) && ReportsHanded(m) && AllFresh(m, ops) && AllHonest(m, ops)
    requires Settled(m, task, overtaken)
    ensures Settled(Run(m, ops), task, overtaken || Overtook(m, ops, task))
    decreases ops
  {
    if ops != [] {
      StepReachable(m, ops[0], task);
      StepSettled(m, ops[0], task, overtaken);
      RunSettled(Step(m, ops[0]), ops[1..], task, overtaken || Overtakes(m, ops[0], task));
    }
  }

  /** With repeated reports: in every run in which no task id is resubmitted and workers report
      what they were handed, a task that was neither failed nor cancelled and has no check pending
      is completed if and only if at least as many reports as slices were counted and none of them
      overtook the check of a full count. */
  lemma CompletedDespiteRepeatsIff(ops: seq<Op>, task: string)
    requires AllFresh(START, ops) && AllHonest(START, ops)
    requires var m := Run(START, ops);
             Has(m.shared.tasks, task) && task !in m.log.disturbed && CheckingCompletion(task) !in m.threads
    requires |SliceIdsOf(Run(START, ops), task)| >= 1
    ensures var m := Run(START, ops);
            Get(m.shared.tasks, task).value.status == COMPLETED <==>
              |Reports(m, task)| >= |SliceIdsOf(m, task)| && !Overtook(START, ops, task)
  {
    RunReachable(START, ops, task);
    RunSettled(START, ops, task, false);
  }

  // ---------------------------------------------------------------- which steps change a status

  /** The status of a task on record after a step, given the one before. */
  function NextStatus(m: Machine, op: Op, task: string, t: Task): Status {
    match op
    case Submit(spec) => if spec.taskId == task then PENDING else t.status
    case Cancel(id) => if id == task then CANCELLED else t.status
    case Fail(id, _) => if Parent(id) == task then FAILED else t.status
    case Advance(i) => if i < |m.threads| then ThreadStatus(m.threads[i], task, t) else t.status
    case _ => t.status
  }

  function ThreadStatus(thread: Thread, task: string, t: Task): Status {
    match thread
    case Holding(_, spec) => if Parent(spec.taskId) == task && t.status == PENDING then RUNNING else t.status
    case CheckingCompletion(parent) => if parent == task && t.completed == t.nSlices then COMPLETED else t.status
    case DecidingRetry(parent, retryable) =>
      if parent == task && retryable && t.retries < 3 then PENDING else t.status
    case _ => t.status
  }

  /** No status is final: which step leads from which status to which. A task is pending once submitted or
      sent for one of at most three retries, running once a pending one is handed out, completed when a
      check finds the counts equal, and failed or cancelled when that is reported or asked for. A
      completed task loses its status by cancellation, failure, resubmission or retry; a failed one by
      cancellation, resubmission, retry or such a check; a cancelled one by failure, resubmission,
      retry or such a check. */
  lemma StatusAfter(m: Machine, op: Op, task: string)
    requires Has(m.shared.tasks, task)
    ensures Has(Step(m, op).shared.tasks, task)
    ensures Get(Step(m, op).shared.tasks, task).value.status ==
      NextStatus(m, op, task, Get(m.shared.tasks, task).value)
  {
    if op.Advance? && op.thread < |m.threads| {
      AdvancedStatus(m, op.thread, task);
    }
  }

  lemma AdvancedStatus(m: Machine, i: nat, task: string)
    requires i < |m.threads| && Has(m.shared.tasks, task)
    ensures Has(Advanced(m, i).shared.tasks, task)
    ensures Get(Advanced(m, i).shared.tasks, task).value.status ==
      ThreadStatus(m.threads[i], task, Get(m.shared.tasks, task).value)
  {
    if QueueOnly(m.threads[i]) {
      QueueOnlyTasks(m, i);
    } else if m.threads[i].Attaching? {
      AttachingTasks(m, i);
    } else {
      RecordingTasks(m, i);
    }
  }

  /** The step cancels, fails, resubmits or retries the task. */
  predicate Undoes(m: Machine, op: Op, task: string) {
    match op
    case Submit(spec) => spec.taskId == task
    case Cancel(id) => id == task
    case Fail(id, _) => Parent(id) == task
    case Advance(i) =>
      && i < |m.threads| && m.threads[i].DecidingRetry? && m.threads[i].parent == task
      && Retries(m.shared, task, m.threads[i].retryable)
    case _ => false
  }

  /** A completed task stays completed except in exactly these steps. */
  lemma StaysCompletedIff(m: Machine, op: Op, task: string)
    requires Has(m.shared.tasks, task) && Get(m.shared.tasks, task).value.status == COMPLETED
    ensures Has(Step(m, op).shared.tasks, task)
    ensures Get(Step(m, op).shared.tasks, task).value.status == COMPLETED <==> !Undoes(m, op, task)
  {
    StatusAfter(m, op, task);
  }

  /** The step submits the task again, or is a retry of it or a check that finds its counts equal. */
  predicate Revives(m: Machine, op: Op, task: string)
    requires Has(m.shared.tasks, task)
  {
    var t := Get(m.shared.tasks, task).value;
    match op
    case Submit(spec) => spec.taskId == task
    case Advance(i) =>
      i < |m.threads| && (m.threads[i].CheckingCompletion? || m.threads[i].DecidingRetry?) &&
      ThreadStatus(m.threads[i], task, t) != t.status
    case _ => false
  }

  /** A failed task stays failed, and a cancelled one cancelled, except when it is revived or the
      one turns into the other. */
  lemma StaysEndedIff(m: Machine, op: Op, task: string)
    requires Has(m.shared.tasks, task)
    ensures Has(Step(m, op).shared.tasks, task)
    ensures Get(m.shared.tasks, task).value.status == FAILED ==>
      (Get(Step(m, op).shared.tasks, task).value.status == FAILED <==>
        !Revives(m, op, task) && op != Cancel(task))
    ensures Get(m.shared.tasks, task).value.status == CANCELLED ==>
      (Get(Step(m, op).shared.tasks, task).value.status == CANCELLED <==>
        !Revives(m, op, task) && !(op.Fail? && Parent(op.id) == task))
  {
    StatusAfter(m, op, task);
  }

  // ---------------------------------------------------------------- timeouts and retries

  /** A retry travels under the task's own id. When its worker times out it is enqueued again if
      and only if the task was handed on whole: a sharded task has no slice of that id. */
  lemma RetryReclaimedIff(t: Task, worker: string)
    requires IsAttached(t) && !HasMarker(t.spec.taskId)
    requires Get(t.assignments, t.spec.taskId) == Some(worker)
    ensures t.spec in Reclaimed(t.assignments, t.slicesById, worker) <==> Shard.ShardTask(t.spec) == [t.spec]
  {
    var slices := Shard.ShardTask(t.spec);
    if slices == [t.spec] {
      SliceTracking.SliceById(t.spec, t.spec);
      ReclaimedAt(t.assignments, t.slicesById, worker, t.spec.taskId);
    } else if t.spec in Reclaimed(t.assignments, t.slicesById, worker) {
      ReclaimedIsSlice(t.assignments, t.slicesById, worker, t.spec);
      var id :| Get(t.slicesById, id) == Some(t.spec);
      ByIdMember(slices, id);
      OwnIdIsNoSlice(t.spec);
    }
  }

  lemma OwnIdIsNoSlice(spec: TaskSpec)
    requires !HasMarker(spec.taskId) && Shard.ShardTask(spec) != [spec]
    ensures spec !in Shard.ShardTask(spec)
  {
    var slices := Shard.ShardTask(spec);
    Shard.ShardNumbers(spec);
    forall i | 0 <= i < |slices|
      ensures slices[i] != spec
    {
      ParentOfSliceId(spec.taskId, i);
    }
  }

  lemma {:induction false} ReclaimedAt(assignments: Dict<string>, slicesById: Dict<TaskSpec>, worker: string,
      id: string)
    requires Get(assignments, id) == Some(worker) && Has(slicesById, id)
    ensures Get(slicesById, id).value in Reclaimed(assignments, slicesById, worker)
  {
    if assignments[0].key != id {
      ReclaimedAt(assignments[1..], slicesById, worker, id);
    }
  }

  lemma {:induction false} ReclaimedWasAssigned(assignments: Dict<string>, slicesById: Dict<TaskSpec>, worker: string,
      slice: TaskSpec)
    requires DistinctKeys(assignments) && slice in Reclaimed(assignments, slicesById, worker)
    requires forall id :: Has(slicesById, id) ==> Get(slicesById, id).value.taskId == id
    ensures Get(assignments, slice.taskId) == Some(worker) && Has(slicesById, slice.taskId)
  {
    var first := assignments[0];
    if !(first.value == worker && Has(slicesById, first.key) && Get(slicesById, first.key).value == slice) {
      ReclaimedWasAssigned(assignments[1..], slicesById, worker, slice);
      GetIsMember(assignments[1..], slice.taskId);
      assert slice.taskId in Keys(assignments[1..]);
      assert first.key != slice.taskId;
    }
  }

  /** A report takes nothing off record: a timeout enqueues a slice under a reported id again if
      and only if the id is assigned to the silent worker and is that of an attached slice. */
  lemma ReportedSliceReclaimedIff(t: Task, id: string, result: Outcome, worker: string)
    requires DistinctKeys(t.assignments) && t.slicesById == ById(t.slices)
    ensures var t' := WithResult(t, id, result);
            id in Ids(Reclaimed(t'.assignments, t'.slicesById, worker)) <==>
              Get(t.assignments, id) == Some(worker) && Has(t.slicesById, id)
  {
    var reclaimed := Reclaimed(t.assignments, t.slicesById, worker);
    forall k | Has(t.slicesById, k)
      ensures Get(t.slicesById, k).value.taskId == k
    {
      ByIdMember(t.slices, k);
    }
    if id in Ids(reclaimed) {
      var i :| 0 <= i < |reclaimed| && Ids(reclaimed)[i] == id;
      ReclaimedWasAssigned(t.assignments, t.slicesById, worker, reclaimed[i]);
    }
    if Get(t.assignments, id) == Some(worker) && Has(t.slicesById, id) {
      ReclaimedAt(t.assignments, t.slicesById, worker, id);
      var i :| 0 <= i < |reclaimed| && reclaimed[i] == Get(t.slicesById, id).value;
      assert Ids(reclaimed)[i] == id;
    }
  }

  // ---------------------------------------------------------------- ids that contain the marker

  /** An assignment or report of a task handed on whole is recorded with that task exactly when
      its id contains no "-s". */
  lemma WholeTaskRecordedIff(s: Shared, spec: TaskSpec, worker: string, result: Outcome)
    requires Has(s.tasks, spec.taskId) && !Has(Get(s.tasks, spec.taskId).value.assignments, spec.taskId)
    ensures Has(Get(AssignmentRecorded(s, spec.taskId, worker).tasks, spec.taskId).value.assignments, spec.taskId)
      <==> !HasMarker(spec.taskId)
    ensures Get(ResultStored(s, spec.taskId, result).tasks, spec.taskId).value.completed
      == Get(s.tasks, spec.taskId).value.completed + if HasMarker(spec.taskId) then 0 else 1
  {
    SelfRoutedIff(spec.taskId);
  }

  // ---------------------------------------------------------------- the task history

  /** The history entry that a step makes: for a cancelled task, for one whose check completes it, and
      for a failed one that is not tried again, under the status it has by then. */
  function Ending(m: Machine, op: Op): seq<Past> {
    match op
    case Cancel(id) => if Has(m.shared.tasks, id) then [Entry(m.shared, id, CANCELLED)] else []
    case Advance(i) => if i < |m.threads| then ThreadEnding(m.shared, m.threads[i]) else []
    case _ => []
  }

  function ThreadEnding(s: Shared, thread: Thread): seq<Past> {
    match thread
    case CheckingCompletion(id) =>
      if Has(s.tasks, id) && Get(s.tasks, id).value.completed == Get(s.tasks, id).value.nSlices
      then [Entry(s, id, COMPLETED)] else []
    case DecidingRetry(id, retryable) =>
      if Has(s.tasks, id) && !(retryable && Get(s.tasks, id).value.retries < 3)
      then [Entry(s, id, Get(s.tasks, id).value.status)] else []
    case _ => []
  }

  function Entry(s: Shared, id: string, status: Status): Past
    requires Has(s.tasks, id)
  {
    var spec := Get(s.tasks, id).value.spec;
    Past(spec.taskId, spec.computeSpec.taskType, status)
  }

  function Endings(m: Machine, ops: seq<Op>): seq<Past>
    decreases ops
  {
    if ops == [] then [] else Ending(m, ops[0]) + Endings(Step(m, ops[0]), ops[1..])
  }

  function LastThousand(entries: seq<Past>): (r: seq<Past>)
    ensures |r| <= 1000
  {
    if |entries| <= 1000 then entries else entries[|entries| - 1000..]
  }

  lemma TailOfMore(all: seq<Past>, entry: Past, skip: nat)
    requires skip < |all|
    ensures (all[skip..] + [entry])[1..] == (all + [entry])[skip + 1..]
  {
  }

  lemma RememberedLast(all: seq<Past>, t: Task)
    ensures Remembered(LastThousand(all), t) == LastThousand(all + [PastOf(t)])
  {
    if |all| >= 1000 {
      TailOfMore(all, PastOf(t), |all| - 1000);
    }
  }

  lemma AdvancedHistory(m: Machine, i: nat, all: seq<Past>)
    requires i < |m.threads| && m.shared.history == LastThousand(all)
    ensures Advanced(m, i).shared.history == LastThousand(all + ThreadEnding(m.shared, m.threads[i]))
  {
    assert all + [] == all;
    if !QueueOnly(m.threads[i]) && !m.threads[i].Attaching? {
      RecordingTasks(m, i);
      match m.threads[i] {
        case CheckingCompletion(parent) => CheckedHistory(m.shared, parent, all);
        case DecidingRetry(parent, retryable) => DecidedHistory(m.shared, parent, retryable, all);
        case Holding(_, _) =>
      }
    }
  }

  lemma CheckedHistory(s: Shared, parent: string, all: seq<Past>)
    requires s.history == LastThousand(all)
    ensures CompletionChecked(s, parent).history ==
      LastThousand(all + ThreadEnding(s, CheckingCompletion(parent)))
  {
    assert all + [] == all;
    if Has(s.tasks, parent) {
      RememberedLast(all, Merged(Get(s.tasks, parent).value));
    }
  }

  lemma DecidedHistory(s: Shared, parent: string, retryable: bool, all: seq<Past>)
    requires s.history == LastThousand(all)
    ensures RetryDecided(s, parent, retryable).history ==
      LastThousand(all + ThreadEnding(s, DecidingRetry(parent, retryable)))
  {
    assert all + [] == all;
    if Has(s.tasks, parent) {
      RememberedLast(all, Get(s.tasks, parent).value);
    }
  }

  lemma StepHistory(m: Machine, op: Op, all: seq<Past>)
    requires m.shared.history == LastThousand(all)
    ensures Step(m, op).shared.history == LastThousand(all + Ending(m, op))
  {
    assert all + [] == all;
    match op
    case Cancel(id) =>
      if Has(m.shared.tasks, id) {
        RememberedLast(all, Get(m.shared.tasks, id).value.(status := CANCELLED));
      }
    case Advance(i) =>
      if i < |m.threads| {
        AdvancedHistory(m, i, all);
      }
    case _ =>
  }

  /** In every run the history is that of the tasks that ended, the last thousand of them in the order
      in which they did. */
  lemma {:induction false} HistoryIsRecent(m: Machine, ops: seq<Op>, all: seq<Past>)
    requires m.shared.history == LastThousand(all)
    ensures Run(m, ops).shared.history == LastThousand(all + Endings(m, ops))
    decreases ops
  {
    if ops == [] {
      assert all + [] == all;
    } else {
      StepHistory(m, ops[0], all);
      HistoryIsRecent(Step(m, ops[0]), ops[1..], all + Ending(m, ops[0]));
      Assoc(all, Ending(m, ops[0]), Endings(Step(m, ops[0]), ops[1..]));
    }
  }
}
