// Particular runs: a task handed on whole from submission to completion, and
// a spec lost by a scan that matches after skipping it.
module DispatcherRuns {
  import opened Protocol
  import opened Dicts
  import opened SliceIds
  import opened DispatcherModel
  import opened Conservation
  import opened Provenance
  import Completion
  import Merge
  import Shard
  import SliceTracking
  import TaskQueue

  lemma {:induction false} RunConcat(m: Machine, a: seq<Op>, b: seq<Op>)
    ensures Run(m, a + b) == Run(Run(m, a), b)
    ensures AllFresh(m, a) && AllFresh(Run(m, a), b) ==> AllFresh(m, a + b)
    ensures AllHonest(m, a) && AllHonest(Run(m, a), b) ==> AllHonest(m, a + b)
    decreases a
  {
    if a == [] {
      assert a + b == b;
    } else {
      assert (a + b)[1..] == a[1..] + b;
      RunConcat(Step(m, a[0]), a[1..], b);
    }
  }

  lemma RunOne(m: Machine, op: Op)
    ensures Run(m, [op]) == Step(m, op)
    ensures Fresh(m, op) ==> AllFresh(m, [op])
    ensures Honest(m, op) ==> AllHonest(m, [op])
  {
    assert [op][1..] == [];
  }

  predicate NoTimeouts(ops: seq<Op>) {
    forall i :: 0 <= i < |ops| ==> !ops[i].Timeout?
  }

  /** The run goes from m to m' and resubmits no task; workers report what they were handed, and
      none of them times out. */
  ghost predicate Leads(m: Machine, ops: seq<Op>, m': Machine) {
    AllFresh(m, ops) && AllHonest(m, ops) && NoTimeouts(ops) && Run(m, ops) == m'
  }

  lemma LeadsOne(m: Machine, op: Op)
    requires Fresh(m, op) && Honest(m, op) && !op.Timeout?
    ensures Leads(m, [op], Step(m, op))
  {
    RunOne(m, op);
  }

  lemma LeadsOn(m: Machine, ops: seq<Op>, m': Machine, op: Op)
    requires Leads(m, ops, m') && Fresh(m', op) && Honest(m', op) && !op.Timeout?
    ensures Leads(m, ops + [op], Step(m', op))
  {
    RunOne(m', op);
    RunConcat(m, ops, [op]);
  }

  // ---------------------------------------------------------------- submission

  predicate Whole(spec: TaskSpec) {
    Shard.ShardTask(spec) == [spec] && !HasMarker(spec.taskId)
  }

  /** A task that was submitted whole, with nothing else going on. */
  function SubmittedTask(spec: TaskSpec): Task {
    WithSlices(NewTask(spec), [spec])
  }

  function AfterSubmission(m: Machine, spec: TaskSpec): Machine {
    var tasks := Put(Put(m.shared.tasks, spec.taskId, NewTask(spec)), spec.taskId, SubmittedTask(spec));
    Machine(Enqueued(m.shared.(tasks := tasks), spec),
            m.threads + [Done], m.log.(issued := m.log.issued + [spec.taskId]))
  }

  function SubmissionOps(m: Machine, spec: TaskSpec): seq<Op> {
    var n := |m.threads|;
    [Submit(spec)] + [Advance(n)] + [Advance(n)] + [Advance(n)]
  }

  lemma Submission(m: Machine, spec: TaskSpec)
    requires Whole(spec) && !Has(m.shared.tasks, spec.taskId)
    ensures Leads(m, SubmissionOps(m, spec), AfterSubmission(m, spec))
  {
    var n := |m.threads|;
    var m1 := Step(m, Submit(spec));
    LeadsOne(m, Submit(spec));
    var m2 := Step(m1, Advance(n));
    LeadsOn(m, [Submit(spec)], m1, Advance(n));
    assert m2.threads == m.threads + [Enqueuing([spec])];
    var m3 := Step(m2, Advance(n));
    LeadsOn(m, [Submit(spec)] + [Advance(n)], m2, Advance(n));
    assert [spec][1..] == [];
    assert m3.threads == m.threads + [Enqueuing([])];
    LeadsOn(m, [Submit(spec)] + [Advance(n)] + [Advance(n)], m3, Advance(n));
    assert Step(m3, Advance(n)).threads == m.threads + [Done];
  }

  // ---------------------------------------------------------------- a whole life

  /** The first k results under the ids of their slices. */
  function Reported(ids: seq<string>, results: seq<Outcome>, k: nat): (d: Dict<Outcome>)
    requires k <= |ids| == |results|
    ensures |d| == k && forall i :: 0 <= i < k ==> d[i] == Item(ids[i], results[i])
  {
    seq(k, i requires 0 <= i < k => Item(ids[i], results[i]))
  }

  /** The task is alone; its first slices left the queue, k of them reported their results. */
  ghost predicate Halfway(m: Machine, spec: TaskSpec, results: seq<Outcome>, sent: nat, k: nat)
    requires sent <= |Shard.ShardTask(spec)| == |results| && k <= |results|
  {
    var slices := Shard.ShardTask(spec);
    && m.log.disturbed == {} && m.log.reports == Ids(slices)[..k]
    && m.shared.queue == TaskQueue.ByPriority(slices)[sent..]
    && AttachedAt(m.shared, spec.taskId)
    && var t := Get(m.shared.tasks, spec.taskId).value;
       && t.spec == spec && t.completed == k && t.partials == Reported(Ids(slices), results, k)
       && (t.status == COMPLETED <==> k == |slices|)
       && (t.status == COMPLETED ==> t.merged == Merge.MergeResults(spec.computeSpec.taskType, results))
  }

  /** Submission has sent the first j slices. */
  ghost predicate Sending(m: Machine, spec: TaskSpec, j: nat)
    requires j <= |Shard.ShardTask(spec)|
  {
    var slices := Shard.ShardTask(spec);
    && m.log.disturbed == {} && m.log.reports == []
    && m.threads == [Enqueuing(slices[j..])]
    && m.shared.queue == TaskQueue.ByPriority(slices)[..j]
    && m.shared.tasks == [Item(spec.taskId, WithSlices(NewTask(spec), slices))]
  }

  /** A slice goes behind the slices before it. */
  lemma SliceQueued(spec: TaskSpec, j: nat)
    requires j < |Shard.ShardTask(spec)|
    ensures var slices := Shard.ShardTask(spec);
            TaskQueue.Enqueued(TaskQueue.ByPriority(slices)[..j], slices[j]) == TaskQueue.ByPriority(slices)[..j + 1]
  {
    var q := TaskQueue.ByPriority(Shard.ShardTask(spec));
    forall i | 0 <= i <= j
      ensures q[i].key == spec.dispatchSpec.priority
    {
      Shard.ShardKinds(spec, i);
    }
    TaskQueue.InsertAtEnd(q[..j], q[j]);
    assert q[..j] + [q[j]] == q[..j + 1];
  }

  lemma EnqueuingStep(m: Machine, rest: seq<TaskSpec>)
    requires m.threads == [Enqueuing(rest)] && rest != []
    ensures var m' := Step(m, Advance(0));
            && m'.threads == [Enqueuing(rest[1..])] && m'.shared == Enqueued(m.shared, rest[0])
            && m'.log.disturbed == m.log.disturbed && m'.log.reports == m.log.reports
  {
  }

  lemma SentNext(m: Machine, spec: TaskSpec, j: nat)
    requires j < |Shard.ShardTask(spec)| && Sending(m, spec, j)
    ensures Sending(Step(m, Advance(0)), spec, j + 1)
  {
    var slices := Shard.ShardTask(spec);
    SliceQueued(spec, j);
    EnqueuingStep(m, slices[j..]);
    assert slices[j..][1..] == slices[j + 1..];
  }

  lemma {:induction false} SentAll(m: Machine, spec: TaskSpec, results: seq<Outcome>, j: nat)
      returns (ops: seq<Op>, m': Machine)
    requires j <= |Shard.ShardTask(spec)| == |results| && results != [] && Sending(m, spec, j)
    ensures Leads(m, ops, m') && Halfway(m', spec, results, 0, 0)
    decreases |results| - j
  {
    if j == |results| {
      ops, m' := [], m;
      var q := TaskQueue.ByPriority(Shard.ShardTask(spec));
      assert q[..j] == q == q[0..];
    } else {
      var m1 := Step(m, Advance(0));
      SentNext(m, spec, j);
      LeadsOne(m, Advance(0));
      ops, m' := SentAll(m1, spec, results, j + 1);
      RunConcat(m, [Advance(0)], ops);
      ops := [Advance(0)] + ops;
    }
  }

  lemma AloneSubmitted(spec: TaskSpec, results: seq<Outcome>) returns (ops: seq<Op>, m: Machine)
    requires !HasMarker(spec.taskId) && |Shard.ShardTask(spec)| == |results| && results != []
    ensures Leads(START, ops, m) && Halfway(m, spec, results, 0, 0)
  {
    var m1 := Step(START, Submit(spec));
    LeadsOne(START, Submit(spec));
    var m2 := Step(m1, Advance(0));
    LeadsOn(START, [Submit(spec)], m1, Advance(0));
    assert Sending(m2, spec, 0) by {
      assert m1.shared.tasks == [Item(spec.taskId, NewTask(spec))];
      assert Shard.ShardTask(spec)[0..] == Shard.ShardTask(spec);
    }
    ops, m := SentAll(m2, spec, results, 0);
    RunConcat(START, [Submit(spec)] + [Advance(0)], ops);
    ops := [Submit(spec)] + [Advance(0)] + ops;
  }

  /** The worker's request is answered with the next slice. */
  lemma NextHandedOut(m: Machine, spec: TaskSpec, results: seq<Outcome>, k: nat, worker: string,
      capabilities: seq<string>) returns (ops: seq<Op>, m': Machine)
    requires k < |results| == |Shard.ShardTask(spec)| && Halfway(m, spec, results, k, k)
    requires !HasMarker(spec.taskId) && Capable(spec, capabilities)
    ensures Leads(m, ops, m') && Halfway(m', spec, results, k + 1, k)
    ensures Shard.ShardTask(spec)[k].taskId in m'.log.handed
    ensures var t := Get(m'.shared.tasks, spec.taskId).value;
            Get(t.assignments, Shard.ShardTask(spec)[k].taskId) == Some(worker)
  {
    var n, slice := |m.threads|, Shard.ShardTask(spec)[k];
    Shard.ShardKinds(spec, k);
    Shard.ShardIds(spec, k);
    LeadsOne(m, Assign(worker, capabilities));
    var m1 := Step(m, Assign(worker, capabilities));
    assert m1.shared.queue[0].spec == slice;
    LeadsOn(m, [Assign(worker, capabilities)], m1, Advance(n));
    var m2 := Step(m1, Advance(n));
    assert m2.threads[n] == Holding(worker, slice);
    ops := [Assign(worker, capabilities)] + [Advance(n)];
    LeadsOn(m, ops, m2, Advance(n));
    ops, m' := ops + [Advance(n)], Step(m2, Advance(n));
    RecordingTasks(m2, n);
  }

  lemma ReportedNext(spec: TaskSpec, results: seq<Outcome>, k: nat)
    requires k < |results| == |Shard.ShardTask(spec)|
    ensures var ids := Ids(Shard.ShardTask(spec));
            Put(Reported(ids, results, k), ids[k], results[k]) == Reported(ids, results, k + 1)
    ensures Values(Reported(Ids(Shard.ShardTask(spec)), results, |results|)) == results
  {
    Shard.ShardIds(spec, k);
    var ids := Ids(Shard.ShardTask(spec));
    PutNew(Reported(ids, results, k), ids[k], results[k]);
  }

  /** Its report is stored and checked. */
  lemma NextReported(m: Machine, spec: TaskSpec, results: seq<Outcome>, k: nat)
      returns (ops: seq<Op>, m': Machine)
    requires k < |results| == |Shard.ShardTask(spec)| && Halfway(m, spec, results, k + 1, k)
    requires !HasMarker(spec.taskId) && Shard.ShardTask(spec)[k].taskId in m.log.handed
    ensures Leads(m, ops, m') && Halfway(m', spec, results, k + 1, k + 1)
  {
    var n, id := |m.threads|, Shard.ShardTask(spec)[k].taskId;
    Shard.ShardIds(spec, k);
    ReportedNext(spec, results, k);
    LeadsOne(m, Complete(id, results[k]));
    var m1 := Step(m, Complete(id, results[k]));
    assert m1.threads[n] == CheckingCompletion(spec.taskId);
    LeadsOn(m, [Complete(id, results[k])], m1, Advance(n));
    ops, m' := [Complete(id, results[k])] + [Advance(n)], Step(m1, Advance(n));
    RecordingTasks(m1, n);
    AdvancedLog(m1, n);
  }

  lemma {:induction false} AloneFrom(m: Machine, spec: TaskSpec, results: seq<Outcome>, k: nat, worker: string,
      capabilities: seq<string>) returns (ops: seq<Op>, m': Machine)
    requires k <= |results| == |Shard.ShardTask(spec)| && Halfway(m, spec, results, k, k)
    requires !HasMarker(spec.taskId) && Capable(spec, capabilities)
    ensures Leads(m, ops, m') && Halfway(m', spec, results, |results|, |results|)
    decreases |results| - k
  {
    if k == |results| {
      ops, m' := [], m;
    } else {
      var handing, m1 := NextHandedOut(m, spec, results, k, worker, capabilities);
      var reporting, m2 := NextReported(m1, spec, results, k);
      var rest;
      rest, m' := AloneFrom(m2, spec, results, k + 1, worker, capabilities);
      RunConcat(m1, reporting, rest);
      RunConcat(m, handing, reporting + rest);
      ops := handing + (reporting + rest);
    }
  }

  /** A capable worker alone carries any task with slices from submission to completion: the
      results it reports are the partial results of its slices, and the result delivers them. */
  lemma CarriedThrough(spec: TaskSpec, worker: string, capabilities: seq<string>, results: seq<Outcome>)
      returns (ops: seq<Op>)
    requires !HasMarker(spec.taskId) && Capable(spec, capabilities)
    requires |results| == |Shard.ShardTask(spec)| && results != []
    ensures AllFresh(START, ops) && AllHonest(START, ops) && Completion.Undisturbed(Run(START, ops), spec.taskId)
    ensures var t := Get(Run(START, ops).shared.tasks, spec.taskId).value;
            && t.spec == spec && t.status == COMPLETED
            && t.partials == Reported(Ids(Shard.ShardTask(spec)), results, |results|)
            && Merge.Delivers(spec.computeSpec.taskType, results, t.merged)
  {
    Merge.MergeDelivers(spec.computeSpec.taskType, results);
    var before, m := AloneSubmitted(spec, results);
    var after, m' := AloneFrom(m, spec, results, 0, worker, capabilities);
    RunConcat(START, before, after);
    ops := before + after;
    var ids := Ids(Shard.ShardTask(spec));
    assert ids[..|results|] == ids;
    SlicesRouted(spec, spec.taskId);
    Completion.SliceIdsDiffer(spec);
  }

  // ---------------------------------------------------------------- a lost slice

  /** Both tasks were submitted and nothing else has happened to their queue. */
  lemma BothSubmitted(first: TaskSpec, second: TaskSpec) returns (ops: seq<Op>, m: Machine)
    requires Whole(first) && Whole(second) && first.taskId != second.taskId
    requires first.dispatchSpec.priority <= second.dispatchSpec.priority
    ensures Leads(START, ops, m) && m.threads == [Done, Done]
    ensures TaskQueue.Specs(m.shared.queue) == [first, second]
    ensures Get(m.shared.tasks, first.taskId) == Some(SubmittedTask(first))
  {
    Submission(START, first);
    var m1 := AfterSubmission(START, first);
    Submission(m1, second);
    RunConcat(START, SubmissionOps(START, first), SubmissionOps(m1, second));
    ops, m := SubmissionOps(START, first) + SubmissionOps(m1, second), AfterSubmission(m1, second);
    TwoQueued(first, second);
  }

  /** The worker's scan skips the first queued spec and takes the second. */
  lemma SecondTaken(m: Machine, worker: string, capabilities: seq<string>) returns (ops: seq<Op>, m': Machine)
    requires m.threads == [Done, Done] && |m.shared.queue| == 2
    requires !Capable(m.shared.queue[0].spec, capabilities) && Capable(m.shared.queue[1].spec, capabilities)
    ensures Leads(m, ops, m')
    ensures m'.threads == [Done, Done, Holding(worker, m.shared.queue[1].spec)] && m'.shared == m.shared.(queue := [])
  {
    LeadsOne(m, Assign(worker, capabilities));
    var m1 := Step(m, Assign(worker, capabilities));
    ops := [Assign(worker, capabilities)];
    assert m1.threads == [Done, Done, Scanning(worker, capabilities, [])];
    LeadsOn(m, ops, m1, Advance(2));
    ops := ops + [Advance(2)];
    var m2 := Step(m1, Advance(2));
    assert m2.threads[2].skipped == [m.shared.queue[0].spec];
    LeadsOn(m, ops, m2, Advance(2));
    ops, m' := ops + [Advance(2)], Step(m2, Advance(2));
  }

  /** Two tasks wait, the first of a type the worker cannot run. Its request is answered with the
      second, and the first is nowhere any more: not queued, not held, not assigned. */
  lemma SkippedSpecIsLost(first: TaskSpec, second: TaskSpec, worker: string, capabilities: seq<string>)
      returns (ops: seq<Op>)
    requires Whole(first) && Whole(second) && first.taskId != second.taskId
    requires first.dispatchSpec.priority <= second.dispatchSpec.priority
    requires !Capable(first, capabilities) && Capable(second, capabilities)
    ensures AllFresh(START, ops) && AllHonest(START, ops)
    ensures SliceTracking.IsSlice(Run(START, ops), first.taskId, first)
    ensures !SliceTracking.Tracked(Run(START, ops), first.taskId, first)
  {
    var before, m := BothSubmitted(first, second);
    assert m.shared.queue[0].spec == TaskQueue.Specs(m.shared.queue)[0];
    assert m.shared.queue[1].spec == TaskQueue.Specs(m.shared.queue)[1];
    var after, m' := SecondTaken(m, worker, capabilities);
    RunConcat(START, before, after);
    ops := before + after;
    NotCarried(m'.threads, first);
  }

  lemma TwoQueued(first: TaskSpec, second: TaskSpec)
    requires first.dispatchSpec.priority <= second.dispatchSpec.priority
    ensures TaskQueue.Enqueued(TaskQueue.Enqueued([], first), second) ==
      [TaskQueue.Keyed(first.dispatchSpec.priority, first), TaskQueue.Keyed(second.dispatchSpec.priority, second)]
  {
    var q := TaskQueue.Enqueued([], first);
    assert q == [TaskQueue.Keyed(first.dispatchSpec.priority, first)];
    TaskQueue.InsertAtEnd(q, TaskQueue.Keyed(second.dispatchSpec.priority, second));
  }

  lemma {:induction false} NotCarried(threads: seq<Thread>, slice: TaskSpec)
    requires forall i :: 0 <= i < |threads| ==> !SliceTracking.Carries(threads[i], slice)
    ensures !SliceTracking.Carried(threads, slice)
  {
    if threads != [] {
      NotCarried(threads[1..], slice);
    }
  }
}
