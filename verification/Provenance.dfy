// Where ids come from: in runs whose workers report only what was handed to
// them, every id in circulation is that of a slice of an attached task.
module Provenance {
  import opened Protocol
  import opened Dicts
  import opened SliceIds
  import opened DispatcherModel
  import opened Conservation
  import Shard
  import SliceTracking

  /** Workers report only ids that were handed out. */
  predicate Honest(m: Machine, op: Op) {
    match op
    case Complete(id, _) => id in m.log.handed
    case Fail(id, _) => id in m.log.handed
    case _ => true
  }

  predicate AllHonest(m: Machine, ops: seq<Op>)
    decreases ops
  {
    ops == [] || (Honest(m, ops[0]) && AllHonest(Step(m, ops[0]), ops[1..]))
  }

  predicate IsAttached(t: Task) {
    var slices := Shard.ShardTask(t.spec);
    t.slices == slices && t.nSlices == |slices| && t.slicesById == ById(slices)
  }

  predicate AttachedIn(tasks: Dict<Task>, task: string) {
    Has(tasks, task) && IsAttached(Get(tasks, task).value)
  }

  predicate AttachedAt(s: Shared, task: string) {
    AttachedIn(s.tasks, task)
  }

  predicate HasSlice(s: Shared, task: string, id: string)
    requires Has(s.tasks, task)
  {
    id in Ids(Shard.ShardTask(Get(s.tasks, task).value.spec))
  }

  /** The id is that of a slice of an attached task, or of a task that was disturbed. */
  predicate Known(m: Machine, id: string) {
    AttachedAt(m.shared, Parent(id)) && (HasSlice(m.shared, Parent(id), id) || Parent(id) in m.log.disturbed)
  }

  ghost predicate AllKnown(m: Machine, ids: seq<string>) {
    forall id :: id in ids ==> Known(m, id)
  }

  predicate KnownThread(m: Machine, t: Thread) {
    match t
    case Attaching(spec) => SliceTracking.Belongs(m.shared.tasks, spec)
    case Enqueuing(rest) => forall i :: 0 <= i < |rest| ==> Known(m, rest[i].taskId)
    case DecidingRetry(parent, _) => AttachedAt(m.shared, parent) && parent in m.log.disturbed
    case _ => true
  }

  ghost predicate Traceable(m: Machine) {
    && AllKnown(m, m.log.issued)
    && (forall i :: 0 <= i < |m.threads| ==> KnownThread(m, m.threads[i]))
    && (forall task :: Has(m.shared.tasks, task) ==>
         IsAttached(Get(m.shared.tasks, task).value) || Get(m.shared.tasks, task).value.slicesById == [])
    && DistinctKeys(m.shared.tasks)
  }

  // ---------------------------------------------------------------- what steps keep

  /** Tasks stay, with their specs, and attached once they are attached. */
  ghost predicate Persists(m: Machine, m': Machine) {
    && m.log.disturbed <= m'.log.disturbed
    && (forall task :: Has(m.shared.tasks, task) ==> SameTask(m.shared, m'.shared, task))
    && (forall task :: AttachedAt(m.shared, task) ==> AttachedAt(m'.shared, task))
  }

  lemma PersistsKnown(m: Machine, m': Machine, id: string)
    requires Persists(m, m') && Known(m, id)
    ensures Known(m', id)
  {
  }

  lemma PersistsThread(m: Machine, m': Machine, t: Thread)
    requires Persists(m, m') && KnownThread(m, t)
    ensures KnownThread(m', t)
  {
    if t.Enqueuing? {
      forall i | 0 <= i < |t.rest|
        ensures Known(m', t.rest[i].taskId)
      {
        PersistsKnown(m, m', t.rest[i].taskId);
      }
    }
  }

  lemma AdvancedPersists(m: Machine, i: nat, task: string)
    requires i < |m.threads| && KnownThread(m, m.threads[i]) && WellNamed(m)
    ensures Has(m.shared.tasks, task) ==> SameTask(m.shared, Advanced(m, i).shared, task)
    ensures AttachedAt(m.shared, task) ==> AttachedAt(Advanced(m, i).shared, task)
    ensures Advanced(m, i).log.disturbed == m.log.disturbed
  {
    AdvancedKeeps(m, i, task);
    AdvancedLog(m, i);
    if !m.threads[i].Attaching? {
      AdvancedKeepsAttached(m, i, task);
    }
  }

  lemma AdvancedKeepsAttached(m: Machine, i: nat, task: string)
    requires i < |m.threads| && !m.threads[i].Attaching?
    ensures AttachedAt(m.shared, task) <==> AttachedAt(Advanced(m, i).shared, task)
  {
    AdvancedSubmission(m, i, task);
  }

  lemma CallPersists(m: Machine, op: Op)
    requires Fresh(m, op) && !op.Advance?
    ensures Persists(m, Step(m, op))
  {
  }

  lemma StepPersists(m: Machine, op: Op)
    requires Traceable(m) && WellNamed(m) && Fresh(m, op)
    ensures Persists(m, Step(m, op))
  {
    if !op.Advance? {
      CallPersists(m, op);
    } else if op.thread < |m.threads| {
      forall task
        ensures Has(m.shared.tasks, task) ==> SameTask(m.shared, Step(m, op).shared, task)
        ensures AttachedAt(m.shared, task) ==> AttachedAt(Step(m, op).shared, task)
      {
        AdvancedPersists(m, op.thread, task);
      }
      AdvancedPersists(m, op.thread, "");
    }
  }

  // ---------------------------------------------------------------- newly issued ids

  lemma {:induction false} ByIdMember(slices: seq<TaskSpec>, id: string)
    requires Has(ById(slices), id)
    ensures Get(ById(slices), id).value in slices && Get(ById(slices), id).value.taskId == id
  {
    if slices != [] && slices[|slices| - 1].taskId != id {
      ByIdMember(slices[..|slices| - 1], id);
    }
  }

  lemma {:induction false} ReclaimedIsSlice(assignments: Dict<string>, slicesById: Dict<TaskSpec>, worker: string,
      s: TaskSpec)
    requires s in Reclaimed(assignments, slicesById, worker)
    ensures exists id :: Get(slicesById, id) == Some(s)
  {
    if assignments[0].value == worker && Has(slicesById, assignments[0].key) &&
       Get(slicesById, assignments[0].key).value == s {
    } else {
      ReclaimedIsSlice(assignments[1..], slicesById, worker, s);
    }
  }

  lemma {:induction false} ReclaimedFrom(tasks: Dict<Task>, worker: string, s: TaskSpec) returns (i: nat)
    requires s in AllReclaimed(tasks, worker)
    ensures i < |tasks| && s in Reclaimed(tasks[i].value.assignments, tasks[i].value.slicesById, worker)
  {
    if s in Reclaimed(tasks[0].value.assignments, tasks[0].value.slicesById, worker) {
      i := 0;
    } else {
      i := ReclaimedFrom(tasks[1..], worker, s);
      i := i + 1;
    }
  }

  lemma SliceKnown(m: Machine, task: string, s: TaskSpec)
    requires WellNamed(m) && AttachedAt(m.shared, task) && s in Shard.ShardTask(Get(m.shared.tasks, task).value.spec)
    ensures Known(m, s.taskId)
  {
    var spec := Get(m.shared.tasks, task).value.spec;
    SliceTracking.SliceRouted(spec, s);
    var i :| 0 <= i < |Shard.ShardTask(spec)| && Shard.ShardTask(spec)[i] == s;
    assert Ids(Shard.ShardTask(spec))[i] == s.taskId;
  }

  lemma ReclaimedKnown(m: Machine, worker: string, s: TaskSpec)
    requires WellNamed(m) && Traceable(m) && s in AllReclaimed(m.shared.tasks, worker)
    ensures Known(m, s.taskId)
  {
    var i := ReclaimedFrom(m.shared.tasks, worker, s);
    var task, t := m.shared.tasks[i].key, m.shared.tasks[i].value;
    GetAt(m.shared.tasks, i);
    ReclaimedIsSlice(t.assignments, t.slicesById, worker, s);
    var id :| Get(t.slicesById, id) == Some(s);
    ByIdMember(Shard.ShardTask(t.spec), id);
    SliceKnown(m, task, s);
  }

  /** Ids added to the issued ones by a step. */
  function NewlyIssued(m: Machine, op: Op): seq<string> {
    match op
    case Advance(i) =>
      if i >= |m.threads| then []
      else if m.threads[i].Enqueuing? && m.threads[i].rest != [] then [m.threads[i].rest[0].taskId]
      else if m.threads[i].DecidingRetry? && Retries(m.shared, m.threads[i].parent, m.threads[i].retryable)
      then [Get(m.shared.tasks, m.threads[i].parent).value.spec.taskId]
      else []
    case _ => []
  }

  lemma IssuedGrows(m: Machine, op: Op)
    ensures Step(m, op).log.issued == m.log.issued + NewlyIssued(m, op)
  {
  }

  lemma NewlyIssuedKnown(m: Machine, op: Op, id: string)
    requires WellNamed(m) && Traceable(m) && id in NewlyIssued(m, op)
    ensures Known(m, id)
  {
    match op
    case Advance(i) =>
      assert KnownThread(m, m.threads[i]);
      if m.threads[i].DecidingRetry? {
        SelfRoutedIff(m.threads[i].parent);
      }
    case _ =>
  }

  // ---------------------------------------------------------------- steps

  lemma StepDistinct(m: Machine, op: Op)
    requires DistinctKeys(m.shared.tasks)
    ensures DistinctKeys(Step(m, op).shared.tasks)
  {
    match op
    case Submit(spec) => PutKeepsDistinct(m.shared.tasks, spec.taskId, NewTask(spec));
    case Complete(id, result) => PutAnyKeepsDistinct(m.shared.tasks, Parent(id));
    case Fail(id, _) => PutAnyKeepsDistinct(m.shared.tasks, Parent(id));
    case Cancel(id) => PutAnyKeepsDistinct(m.shared.tasks, id);
    case Timeout(worker) => UnassignedDistinct(m.shared.tasks, worker);
    case Advance(i) =>
      if i < |m.threads| {
        AdvancedDistinct(m, i);
      }
    case Assign(_, _) =>
  }

  lemma AdvancedDistinct(m: Machine, i: nat)
    requires i < |m.threads| && DistinctKeys(m.shared.tasks)
    ensures DistinctKeys(Advanced(m, i).shared.tasks)
  {
    match m.threads[i]
    case Attaching(spec) => PutAnyKeepsDistinct(m.shared.tasks, spec.taskId);
    case Holding(_, spec) => PutAnyKeepsDistinct(m.shared.tasks, Parent(spec.taskId));
    case CheckingCompletion(parent) => PutAnyKeepsDistinct(m.shared.tasks, parent);
    case DecidingRetry(parent, _) => PutAnyKeepsDistinct(m.shared.tasks, parent);
    case _ =>
  }

  lemma PutAnyKeepsDistinct(tasks: Dict<Task>, key: string)
    requires DistinctKeys(tasks)
    ensures forall t :: DistinctKeys(Put(tasks, key, t))
  {
    forall t
      ensures DistinctKeys(Put(tasks, key, t))
    {
      PutKeepsDistinct(tasks, key, t);
    }
  }

  lemma {:induction false} UnassignedKeys(tasks: Dict<Task>, worker: string)
    ensures Keys(AllUnassigned(tasks, worker)) == Keys(tasks)
  {
    if tasks != [] {
      UnassignedKeys(tasks[1..], worker);
      var r := AllUnassigned(tasks, worker);
      assert r == [r[0]] + AllUnassigned(tasks[1..], worker);
      assert Keys(r) == [r[0].key] + Keys(AllUnassigned(tasks[1..], worker));
      assert Keys(tasks) == [tasks[0].key] + Keys(tasks[1..]);
    }
  }

  lemma UnassignedDistinct(tasks: Dict<Task>, worker: string)
    requires DistinctKeys(tasks)
    ensures DistinctKeys(AllUnassigned(tasks, worker))
  {
    UnassignedKeys(tasks, worker);
    var r := AllUnassigned(tasks, worker);
    forall i, j | 0 <= i < j < |r|
      ensures r[i].key != r[j].key
    {
      assert Keys(r)[i] == tasks[i].key && Keys(r)[j] == tasks[j].key;
    }
  }

  /** Every task is attached or has no slices on record. */
  lemma StepAttached(m: Machine, op: Op, task: string)
    requires WellNamed(m) && Traceable(m) && Fresh(m, op) && Has(Step(m, op).shared.tasks, task)
    ensures AttachedAt(Step(m, op).shared, task) || Get(Step(m, op).shared.tasks, task).value.slicesById == []
  {
    if op.Advance? && op.thread < |m.threads| {
      assert KnownThread(m, m.threads[op.thread]);
      AdvancedAttached(m, op.thread, task);
    }
  }

  lemma AdvancedAttached(m: Machine, i: nat, task: string)
    requires WellNamed(m) && Traceable(m) && i < |m.threads| && Has(Advanced(m, i).shared.tasks, task)
    requires KnownThread(m, m.threads[i])
    ensures AttachedAt(Advanced(m, i).shared, task) || Get(Advanced(m, i).shared.tasks, task).value.slicesById == []
  {
    if !m.threads[i].Attaching? {
      AdvancedSubmission(m, i, task);
      AdvancedKeepsAttached(m, i, task);
    }
  }

  lemma StartedThreadKnown(m: Machine, op: Op)
    requires WellNamed(m) && Traceable(m) && Accounted(m) && Fresh(m, op) && Honest(m, op) && !op.Advance?
    ensures var threads := Step(m, op).threads;
            threads == m.threads || (|threads| == |m.threads| + 1 && threads[..|m.threads|] == m.threads &&
              KnownThread(Step(m, op), threads[|m.threads|]))
  {
    match op
    case Fail(id, retryable) =>
      if Has(m.shared.tasks, Parent(id)) {
        HandedKnown(m, id);
      }
    case Timeout(worker) => ReclaimedThreadKnown(m, worker);
    case _ =>
  }

  /** The thread a step starts or moves stays known. */
  lemma NewThreadKnown(m: Machine, op: Op, k: nat)
    requires WellNamed(m) && Traceable(m) && Accounted(m) && Fresh(m, op) && Honest(m, op)
    requires k < |Step(m, op).threads|
    ensures
      || (k < |m.threads| && Step(m, op).threads[k] == m.threads[k])
      || KnownThread(Step(m, op), Step(m, op).threads[k])
  {
    if !op.Advance? {
      StartedThreadKnown(m, op);
    } else if op.thread < |m.threads| && k == op.thread {
      AdvancedThreadKnown(m, op.thread);
    }
  }

  lemma ReclaimedThreadKnown(m: Machine, worker: string)
    requires WellNamed(m) && Traceable(m)
    ensures KnownThread(Step(m, Timeout(worker)), Enqueuing(AllReclaimed(m.shared.tasks, worker)))
  {
    var specs := AllReclaimed(m.shared.tasks, worker);
    forall i | 0 <= i < |specs|
      ensures Known(Step(m, Timeout(worker)), specs[i].taskId)
    {
      ReclaimedKnown(m, worker, specs[i]);
      CallPersists(m, Timeout(worker));
      PersistsKnown(m, Step(m, Timeout(worker)), specs[i].taskId);
    }
  }

  lemma HandedIssued(m: Machine, id: string)
    requires Accounted(m) && id in m.log.handed
    ensures id in m.log.issued
  {
    CountIs(m.log.handed, id);
    CountIs(m.log.issued, id);
    assert multiset(m.log.handed)[id] > 0;
    assert multiset(m.log.issued)[id] > 0;
  }

  lemma HandedKnown(m: Machine, id: string)
    requires Traceable(m) && Accounted(m) && id in m.log.handed
    ensures Known(m, id)
  {
    HandedIssued(m, id);
  }

  lemma AdvancedThreadKnown(m: Machine, i: nat)
    requires WellNamed(m) && Traceable(m) && i < |m.threads|
    ensures KnownThread(Advanced(m, i), Advanced(m, i).threads[i])
  {
    assert KnownThread(m, m.threads[i]);
    match m.threads[i]
    case Attaching(spec) =>
      var m' := Advanced(m, i);
      assert AttachedAt(m'.shared, spec.taskId);
      var slices := Shard.ShardTask(spec);
      forall k | 0 <= k < |slices|
        ensures Known(m', slices[k].taskId)
      {
        Shard.ShardIds(spec, k);
        assert Ids(slices)[k] == slices[k].taskId;
      }
    case Enqueuing(rest) =>
      if rest != [] {
        var m' := Advanced(m, i);
        forall k | 0 <= k < |rest[1..]|
          ensures Known(m', rest[1..][k].taskId)
        {
          assert Known(m, rest[k + 1].taskId);
        }
      }
    case _ =>
  }

  lemma StepTraceable(m: Machine, op: Op)
    requires WellNamed(m) && Accounted(m) && Traceable(m) && Fresh(m, op) && Honest(m, op)
    ensures Traceable(Step(m, op))
  {
    var m' := Step(m, op);
    StepPersists(m, op);
    StepDistinct(m, op);
    IssuedGrows(m, op);
    forall id | id in m'.log.issued
      ensures Known(m', id)
    {
      if id in NewlyIssued(m, op) {
        NewlyIssuedKnown(m, op, id);
      }
      PersistsKnown(m, m', id);
    }
    forall k | 0 <= k < |m'.threads|
      ensures KnownThread(m', m'.threads[k])
    {
      NewThreadKnown(m, op, k);
      if k < |m.threads| && m'.threads[k] == m.threads[k] {
        PersistsThread(m, m', m.threads[k]);
      }
    }
    forall task | Has(m'.shared.tasks, task)
      ensures IsAttached(Get(m'.shared.tasks, task).value) || Get(m'.shared.tasks, task).value.slicesById == []
    {
      StepAttached(m, op, task);
    }
  }
}
