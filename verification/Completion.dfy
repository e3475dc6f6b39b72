// When a task completes: never before all its slices are reported, and always
// once they are.
module Completion {
  import opened Protocol
  import opened Dicts
  import opened Seqs
  import opened SliceIds
  import opened DispatcherModel
  import opened Conservation
  import opened Provenance
  import Merge
  import Shard
  import SliceTracking

  /** The reports counted for the task. */
  function Reports(m: Machine, task: string): seq<string> {
    For(m.log.reports, task)
  }

  // ---------------------------------------------------------------- reports and records

  /** The task's records say exactly what was reported. */
  ghost predicate Logged(m: Machine, task: string) {
    var reports := Reports(m, task);
    match Get(m.shared.tasks, task)
    case None => reports == []
    case Some(t) =>
      && t.completed == |reports|
      && DistinctKeys(t.partials)
      && (forall id :: Has(t.partials, id) <==> id in reports)
  }

  /** A completion check or a completed task presupposes a report. */
  ghost predicate Prompted(m: Machine, task: string) {
    || CheckingCompletion(task) in m.threads
    || (Has(m.shared.tasks, task) && Get(m.shared.tasks, task).value.status == COMPLETED)
    ==> Reports(m, task) != []
  }

  /** Reports and results of the task are the same in both states. */
  ghost predicate SameReports(m: Machine, m': Machine, task: string) {
    && Reports(m', task) == Reports(m, task)
    && (Has(m.shared.tasks, task) <==> Has(m'.shared.tasks, task))
    && (Has(m.shared.tasks, task) ==>
         var t, t' := Get(m.shared.tasks, task).value, Get(m'.shared.tasks, task).value;
         t'.completed == t.completed && t'.partials == t.partials)
  }

  /** The tasks agree on what was counted and stored for the task. */
  predicate SameCounts(tasks: Dict<Task>, tasks': Dict<Task>, task: string) {
    && (Has(tasks, task) <==> Has(tasks', task))
    && (Has(tasks, task) ==>
          var t, t' := Get(tasks, task).value, Get(tasks', task).value;
          t'.completed == t.completed && t'.partials == t.partials)
  }

  lemma AttachedCounts(s: Shared, spec: TaskSpec, task: string)
    ensures SameCounts(s.tasks, Attached(s, spec).tasks, task)
  {
  }

  lemma AssignmentCounts(s: Shared, id: string, worker: string, task: string)
    ensures SameCounts(s.tasks, AssignmentRecorded(s, id, worker).tasks, task)
  {
  }

  lemma CheckCounts(s: Shared, parent: string, task: string)
    ensures SameCounts(s.tasks, CompletionChecked(s, parent).tasks, task)
  {
  }

  lemma RetryCounts(s: Shared, parent: string, retryable: bool, task: string)
    ensures SameCounts(s.tasks, RetryDecided(s, parent, retryable).tasks, task)
  {
  }

  lemma AdvancedCounts(m: Machine, i: nat, task: string)
    requires i < |m.threads|
    ensures SameCounts(m.shared.tasks, Advanced(m, i).shared.tasks, task)
  {
    if QueueOnly(m.threads[i]) {
      QueueOnlyTasks(m, i);
    } else if m.threads[i].Attaching? {
      AttachingTasks(m, i);
      AttachedCounts(m.shared, m.threads[i].spec, task);
    } else {
      RecordingTasks(m, i);
      match m.threads[i] {
        case Holding(worker, spec) => AssignmentCounts(m.shared, spec.taskId, worker, task);
        case CheckingCompletion(parent) => CheckCounts(m.shared, parent, task);
        case DecidingRetry(parent, retryable) => RetryCounts(m.shared, parent, retryable, task);
      }
    }
  }

  lemma AdvancedReports(m: Machine, i: nat, task: string)
    requires i < |m.threads|
    ensures SameReports(m, Advanced(m, i), task)
  {
    AdvancedCounts(m, i, task);
    AdvancedLog(m, i);
  }

  lemma CompleteLogged(m: Machine, id: string, result: Outcome, task: string)
    requires Logged(m, task)
    ensures Logged(Step(m, Complete(id, result)), task)
  {
    if Has(m.shared.tasks, Parent(id)) {
      ForOne(m.log.reports, id, task);
      if Parent(id) == task {
        PutKeepsDistinct(Get(m.shared.tasks, task).value.partials, id, result);
      }
    }
  }

  lemma StepLogged(m: Machine, op: Op, task: string)
    requires Fresh(m, op) && Logged(m, task)
    ensures Logged(Step(m, op), task)
  {
    match op
    case Complete(id, result) => CompleteLogged(m, id, result, task);
    case Advance(i) =>
      if i < |m.threads| {
        AdvancedReports(m, i, task);
      }
    case _ =>
  }

  lemma AdvancedPrompted(m: Machine, i: nat, task: string)
    requires i < |m.threads| && Prompted(m, task)
    ensures Prompted(Advanced(m, i), task)
  {
    AdvancedReports(m, i, task);
    NoNewCheck(m, i, task);
    if m.threads[i] == CheckingCompletion(task) {
      assert CheckingCompletion(task) in m.threads;
    }
  }

  /** No thread turns into a completion check. */
  lemma NoNewCheck(m: Machine, i: nat, task: string)
    requires i < |m.threads|
    ensures CheckingCompletion(task) in Advanced(m, i).threads ==> CheckingCompletion(task) in m.threads
  {
    var m' := Advanced(m, i);
    if CheckingCompletion(task) in m'.threads {
      var k :| 0 <= k < |m'.threads| && m'.threads[k] == CheckingCompletion(task);
      assert m.threads[k] == CheckingCompletion(task);
    }
  }

  lemma StepPrompted(m: Machine, op: Op, task: string)
    requires Fresh(m, op) && Prompted(m, task)
    ensures Prompted(Step(m, op), task)
  {
    match op
    case Complete(id, _) => ForOne(m.log.reports, id, task);
    case Advance(i) =>
      if i < |m.threads| {
        AdvancedPrompted(m, i, task);
      }
    case _ =>
  }

  // ---------------------------------------------------------------- never early, never missed

  function SliceIdsOf(m: Machine, task: string): seq<string>
    requires Has(m.shared.tasks, task)
  {
    Ids(Shard.ShardTask(Get(m.shared.tasks, task).value.spec))
  }

  lemma SliceIdsDiffer(spec: TaskSpec)
    ensures NoRepeats(Ids(Shard.ShardTask(spec)))
  {
    var slices := Shard.ShardTask(spec);
    forall i, j | 0 <= i < j < |slices|
      ensures Ids(slices)[i] != Ids(slices)[j]
    {
      Shard.ShardIds(spec, i);
    }
  }

  lemma {:induction false} SetSize(ids: seq<string>)
    requires NoRepeats(ids)
    ensures |set id | id in ids| == |ids|
  {
    if ids != [] {
      var front, last := ids[..|ids| - 1], ids[|ids| - 1];
      SetSize(front);
      assert (set id | id in ids) == (set id | id in front) + {last};
      assert last !in front;
    }
  }

  lemma SubsetFull(a: set<string>, b: set<string>)
    requires a <= b && |a| >= |b|
    ensures a == b
  {
    var rest := b - a;
    assert b == a + rest;
  }

  /** As many reports as slices cover all slices exactly when no report is a duplicate or foreign. */
  lemma CoverIff(reports: seq<string>, ids: seq<string>)
    requires |reports| == |ids| && NoRepeats(ids)
    ensures (forall id :: id in ids ==> id in reports) <==>
      NoRepeats(reports) && forall id :: id in reports ==> id in ids
  {
    if NoRepeats(reports) && forall id :: id in reports ==> id in ids {
      SubsetSizes(reports, ids);
    }
    if forall id :: id in ids ==> id in reports {
      var a, b := set id | id in reports, set id | id in ids;
      SetSize(ids);
      assert b <= a;
      SetNoLarger(reports);
      SubsetFull(b, a);
      DistinctBySize(reports);
      assert forall id :: id in reports ==> id in a;
    }
  }

  lemma {:induction false} SetNoLarger(ids: seq<string>)
    ensures |set id | id in ids| <= |ids|
  {
    if ids != [] {
      var front, last := ids[..|ids| - 1], ids[|ids| - 1];
      SetNoLarger(front);
      assert (set id | id in ids) == (set id | id in front) + {last};
    }
  }

  lemma {:induction false} DistinctBySize(ids: seq<string>)
    requires |set id | id in ids| == |ids|
    ensures NoRepeats(ids)
  {
    if ids != [] {
      var front, last := ids[..|ids| - 1], ids[|ids| - 1];
      assert (set id | id in ids) == (set id | id in front) + {last};
      SetNoLarger(front);
      assert last !in (set id | id in front);
      DistinctBySize(front);
    }
  }

  /** The task was neither failed nor cancelled, and no slice of it was reported twice. */
  ghost predicate Undisturbed(m: Machine, task: string) {
    Has(m.shared.tasks, task) && task !in m.log.disturbed && NoRepeats(Reports(m, task))
  }

  /** The stored result is the merge of the results of all slices. */
  ghost predicate Finished(m: Machine, task: string)
    requires Has(m.shared.tasks, task)
  {
    var t := Get(m.shared.tasks, task).value;
    && AttachedAt(m.shared, task)
    && t.completed == t.nSlices
    && t.merged == Merge.MergeResults(t.spec.computeSpec.taskType, Values(t.partials))
  }

  ghost predicate Timely(m: Machine, task: string) {
    Undisturbed(m, task) ==>
      var t := Get(m.shared.tasks, task).value;
      && (t.status == COMPLETED ==> Finished(m, task))
      && (AttachedAt(m.shared, task) && t.completed == t.nSlices && t.nSlices >= 1 ==>
            t.status == COMPLETED || CheckingCompletion(task) in m.threads)
  }

  /** What is known about every state of a run, as far as one task is concerned. */
  ghost predicate Reachable(m: Machine, task: string) {
    WellNamed(m) && Accounted(m) && Traceable(m) && Logged(m, task) && Prompted(m, task) && Timely(m, task)
  }

  /** In an honest run the reports of an undisturbed task are reports of its attached slices. */
  lemma ReportsAreSlices(m: Machine, task: string)
    requires Traceable(m) && Accounted(m) && Undisturbed(m, task) && ReportsHanded(m)
    ensures forall id :: id in Reports(m, task) ==> id in SliceIdsOf(m, task)
    ensures Reports(m, task) != [] ==> AttachedAt(m.shared, task)
    ensures |Reports(m, task)| <= |SliceIdsOf(m, task)|
    ensures |Reports(m, task)| == |SliceIdsOf(m, task)| <==>
      forall id :: id in SliceIdsOf(m, task) ==> id in Reports(m, task)
  {
    forall id | id in Reports(m, task)
      ensures id in SliceIdsOf(m, task) && AttachedAt(m.shared, task)
    {
      ForMember(m.log.reports, task, id);
      HandedKnown(m, id);
    }
    if Reports(m, task) != [] {
      assert Reports(m, task)[0] in Reports(m, task);
    }
    SliceIdsDiffer(Get(m.shared.tasks, task).value.spec);
    SubsetSizes(Reports(m, task), SliceIdsOf(m, task));
  }

  ghost predicate ReportsHanded(m: Machine) {
    forall id :: id in m.log.reports ==> id in m.log.handed
  }

  lemma StepReportsHanded(m: Machine, op: Op)
    requires ReportsHanded(m) && Honest(m, op)
    ensures ReportsHanded(Step(m, op))
  {
  }

  /** Undisturbed afterwards means undisturbed before. */
  lemma UndisturbedBefore(m: Machine, op: Op, task: string)
    requires Traceable(m) && WellNamed(m) && Fresh(m, op) && Logged(m, task)
    requires Undisturbed(Step(m, op), task)
    ensures Undisturbed(m, task) || (op.Submit? && op.spec.taskId == task)
  {
    StepPersists(m, op);
    SliceTracking.OldOrSubmitted(m, op, task);
    if op.Complete? && Has(m.shared.tasks, Parent(op.id)) {
      ForOne(m.log.reports, op.id, task);
      var before, after := Reports(m, task), Reports(Step(m, op), task);
      assert forall i :: 0 <= i < |before| ==> before[i] == after[i];
    } else if op.Advance? && op.thread < |m.threads| {
      AdvancedReports(m, op.thread, task);
    }
  }

  lemma CompleteTimely(m: Machine, id: string, result: Outcome, task: string)
    requires Reachable(m, task) && ReportsHanded(m) && id in m.log.handed
    requires Undisturbed(Step(m, Complete(id, result)), task)
    ensures Timely(Step(m, Complete(id, result)), task)
  {
    var op := Complete(id, result);
    var m' := Step(m, op);
    if Has(m.shared.tasks, Parent(id)) {
      UndisturbedBefore(m, op, task);
      ForOne(m.log.reports, id, task);
      CompleteLogged(m, id, result, task);
      assert forall t :: t in m.threads ==> t in m'.threads;
      if Parent(id) == task {
        assert m'.threads[|m.threads|] == CheckingCompletion(task);
        StepTraceable(m, op);
        StepAccounted(m, op);
        ReportsAreSlices(m', task);
      }
    }
  }

  lemma StepAccounted(m: Machine, op: Op)
    requires Accounted(m)
    ensures Accounted(Step(m, op))
  {
    RunAccounted(m, [op]);
    assert Run(m, [op]) == Run(Step(m, op), []) == Step(m, op);
  }

  lemma CheckTimely(m: Machine, i: nat, task: string)
    requires Reachable(m, task) && ReportsHanded(m) && i < |m.threads| && m.threads[i] == CheckingCompletion(task)
    requires Undisturbed(m, task)
    ensures Timely(Advanced(m, i), task)
  {
    assert CheckingCompletion(task) in m.threads;
    ReportsAreSlices(m, task);
  }

  /** Any other thread leaves the completion of the task as it was. */
  ghost predicate SameProgress(m: Machine, m': Machine, task: string) {
    && SameReports(m, m', task)
    && (Has(m.shared.tasks, task) ==>
         var t, t' := Get(m.shared.tasks, task).value, Get(m'.shared.tasks, task).value;
         && t'.spec == t.spec && t'.merged == t.merged
         && (t'.status == COMPLETED <==> t.status == COMPLETED))
    && (CheckingCompletion(task) in m.threads ==> CheckingCompletion(task) in m'.threads)
  }

  lemma OtherProgress(m: Machine, i: nat, task: string)
    requires Traceable(m) && i < |m.threads| && task !in m.log.disturbed && m.threads[i] != CheckingCompletion(task)
    ensures SameProgress(m, Advanced(m, i), task)
  {
    AdvancedReports(m, i, task);
    assert KnownThread(m, m.threads[i]);
    if Has(m.shared.tasks, task) {
      OtherKeepsStatus(m, i, task);
    }
    if CheckingCompletion(task) in m.threads {
      var k :| 0 <= k < |m.threads| && m.threads[k] == CheckingCompletion(task);
      assert Advanced(m, i).threads[k] == CheckingCompletion(task);
    }
  }

  lemma OtherKeepsStatus(m: Machine, i: nat, task: string)
    requires i < |m.threads| && task !in m.log.disturbed && m.threads[i] != CheckingCompletion(task)
    requires KnownThread(m, m.threads[i]) && Has(m.shared.tasks, task)
    ensures var t := Get(m.shared.tasks, task).value;
            && Has(Advanced(m, i).shared.tasks, task)
            && var t' := Get(Advanced(m, i).shared.tasks, task).value;
            && t'.spec == t.spec && t'.merged == t.merged
            && (t'.status == COMPLETED <==> t.status == COMPLETED)
  {
  }

  lemma AdvanceTimely(m: Machine, i: nat, task: string)
    requires Reachable(m, task) && ReportsHanded(m) && i < |m.threads|
    requires Undisturbed(Advanced(m, i), task)
    ensures Timely(Advanced(m, i), task)
  {
    UndisturbedBefore(m, Advance(i), task);
    if m.threads[i] == CheckingCompletion(task) {
      CheckTimely(m, i, task);
    } else {
      OtherTimely(m, i, task);
    }
  }

  lemma OtherTimely(m: Machine, i: nat, task: string)
    requires Reachable(m, task) && ReportsHanded(m) && i < |m.threads| && m.threads[i] != CheckingCompletion(task)
    requires Undisturbed(m, task)
    ensures Timely(Advanced(m, i), task)
  {
    assert KnownThread(m, m.threads[i]);
    OtherProgress(m, i, task);
    ReportsAreSlices(m, task);
    AdvancedPersists(m, i, task);
  }

  lemma CallTimely(m: Machine, op: Op, task: string)
    requires Reachable(m, task) && ReportsHanded(m) && Fresh(m, op) && !op.Advance? && !op.Complete?
    requires Undisturbed(Step(m, op), task)
    ensures Timely(Step(m, op), task)
  {
    UndisturbedBefore(m, op, task);
    assert forall t :: t in m.threads ==> t in Step(m, op).threads;
  }

  lemma StepTimely(m: Machine, op: Op, task: string)
    requires Reachable(m, task) && ReportsHanded(m) && Fresh(m, op) && Honest(m, op)
    ensures Timely(Step(m, op), task)
  {
    if Undisturbed(Step(m, op), task) {
      if op.Complete? {
        CompleteTimely(m, op.id, op.result, task);
      } else if !op.Advance? {
        CallTimely(m, op, task);
      } else if op.thread < |m.threads| {
        AdvanceTimely(m, op.thread, task);
      }
    }
  }

  lemma StepReachable(m: Machine, op: Op, task: string)
    requires Reachable(m, task) && ReportsHanded(m) && Fresh(m, op) && Honest(m, op)
    ensures Reachable(Step(m, op), task) && ReportsHanded(Step(m, op))
  {
    StepWellNamed(m, op);
    StepAccounted(m, op);
    StepTraceable(m, op);
    StepLogged(m, op, task);
    StepPrompted(m, op, task);
    StepTimely(m, op, task);
    StepReportsHanded(m, op);
  }

  lemma {:induction false} RunReachable(m: Machine, ops: seq<Op>, task: string)
    requires Reachable(m, task) && ReportsHanded(m) && AllFresh(m, ops) && AllHonest(m, ops)
    ensures Reachable(Run(m, ops), task) && ReportsHanded(Run(m, ops))
    decreases ops
  {
    if ops != [] {
      StepReachable(m, ops[0], task);
      RunReachable(Step(m, ops[0]), ops[1..], task);
    }
  }

  /** A task that is completed has the results of all its slices, and their merge is its result;
      once all slices are reported and no completion check is pending, it is completed. For every
      run in which no task id is resubmitted and workers report what they were handed, every
      interleaving, and every task with at least one slice that was not failed or cancelled and no
      slice of which was reported twice. */
  lemma CompletionExact(ops: seq<Op>, task: string)
    requires AllFresh(START, ops) && AllHonest(START, ops) && Undisturbed(Run(START, ops), task)
    ensures var m := Run(START, ops);
            var t := Get(m.shared.tasks, task).value;
            && (t.status == COMPLETED ==>
                  && (forall id :: id in SliceIdsOf(m, task) <==> Has(t.partials, id))
                  && t.merged == Merge.MergeResults(t.spec.computeSpec.taskType, Values(t.partials)))
            && (CheckingCompletion(task) !in m.threads && |SliceIdsOf(m, task)| >= 1 ==>
                  (t.status == COMPLETED <==> forall id :: id in SliceIdsOf(m, task) ==> Has(t.partials, id)))
            && (|SliceIdsOf(m, task)| == 0 ==> t.status != COMPLETED)
  {
    RunReachable(START, ops, task);
    ReportsAreSlices(Run(START, ops), task);
  }
}
