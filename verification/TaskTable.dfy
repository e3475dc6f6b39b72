// The dispatcher's dictionary of task records, which are updated in place.
module TaskTable {
  import opened Protocol
  import opened Dicts
  import opened DispatcherModel
  import opened SliceIds
  import Merge
  import TaskQueue

  /** The in-flight state of one task. */
  class TaskRecord {
    const spec: TaskSpec
    var status: Status
    var nSlices: int
    var completed: nat
    var retries: nat
    var slices: seq<TaskSpec>
    var slicesById: Dict<TaskSpec>
    var assignments: Dict<string>
    var partials: Dict<Outcome>
    var merged: Outcome

    constructor (spec: TaskSpec)
      ensures this.spec == spec && View() == NewTask(spec) && DistinctKeys(assignments)
    {
      this.spec := spec;
      status, nSlices, completed, retries := PENDING, 1, 0, 0;
      slices, slicesById, assignments, partials, merged := [], [], [], [], Merge.Nothing;
    }

    function View(): (t: Task)
      reads this
      ensures t.spec == spec
    {
      Task(spec, status, nSlices, completed, retries, slices, slicesById, assignments, partials, merged)
    }

    method Attach(slices: seq<TaskSpec>)
      modifies this
      ensures View() == WithSlices(old(View()), slices)
    {
      this.slices := slices;
      nSlices := |slices|;
      slicesById := ById(slices);
    }

    method Assign(id: string, worker: string)
      modifies this
      ensures View() == WithAssignment(old(View()), id, worker)
    {
      assignments := Put(assignments, id, worker);
      if status == PENDING {
        status := RUNNING;
      }
    }

    method Store(id: string, result: Outcome)
      modifies this
      ensures View() == WithResult(old(View()), id, result)
    {
      partials := Put(partials, id, result);
      completed := completed + 1;
    }

    method Complete()
      modifies this
      ensures View() == Merged(old(View()))
    {
      merged := Merge.MergeResults(spec.computeSpec.taskType, Values(partials));
      status := COMPLETED;
    }

    method Retry()
      modifies this
      ensures View() == old(View()).(retries := old(View()).retries + 1, status := PENDING)
    {
      retries := retries + 1;
      status := PENDING;
    }

    method SetStatus(status: Status)
      modifies this
      ensures View() == old(View()).(status := status)
    {
      this.status := status;
    }

    /** Puts this task's slices that are assigned to the worker back into the queue. */
    method Reclaim(worker: string, queue: TaskQueue.MemoryTaskQueue)
      requires queue.Valid() && DistinctKeys(assignments)
      modifies this`assignments, queue
      ensures queue.Valid() && DistinctKeys(assignments)
      ensures View() == Unassigned(old(View()), worker)
      ensures queue.Contents() ==
        TaskQueue.EnqueuedAll(old(queue.Contents()), Reclaimed(old(assignments), slicesById, worker))
    {
      var items := assignments;
      ghost var target := TaskQueue.EnqueuedAll(queue.Contents(), Reclaimed(items, slicesById, worker));
      for i := 0 to |items|
        invariant queue.Valid()
        invariant assignments == Remaining(items, i, worker)
        invariant TaskQueue.EnqueuedAll(queue.Contents(), Reclaimed(items[i..], slicesById, worker)) == target
      {
        RemainingStep(items, i, worker);
        ReclaimedStep(items, i, slicesById, worker, queue.Contents());
        if items[i].value == worker {
          assignments := Removed(assignments, items[i].key);
          PutBack(items[i].key, queue);
        }
      }
      RemainingAll(items, worker);
    }

    /** Queues the slice of that id, if there is one. */
    method PutBack(id: string, queue: TaskQueue.MemoryTaskQueue)
      requires queue.Valid()
      modifies queue
      ensures queue.Valid()
      ensures queue.Contents() == TaskQueue.EnqueuedAll(old(queue.Contents()), SliceOf(slicesById, id))
    {
      var slice := Get(slicesById, id);
      if slice.Some? {
        queue.Enqueue(slice.value);
        assert [slice.value][1..] == [];
      }
    }
  }

  function SliceOf(slicesById: Dict<TaskSpec>, id: string): seq<TaskSpec> {
    match Get(slicesById, id) case None => [] case Some(slice) => [slice]
  }

  /** Queueing what is reclaimed from place i on, item by item. */
  lemma ReclaimedStep(items: Dict<string>, i: nat, slicesById: Dict<TaskSpec>, worker: string, q: seq<TaskQueue.Keyed>)
    requires i < |items|
    ensures TaskQueue.EnqueuedAll(q, Reclaimed(items[i..], slicesById, worker)) ==
      TaskQueue.EnqueuedAll(
        if items[i].value == worker then TaskQueue.EnqueuedAll(q, SliceOf(slicesById, items[i].key)) else q,
        Reclaimed(items[i + 1..], slicesById, worker))
  {
    var rest := Reclaimed(items[i + 1..], slicesById, worker);
    assert items[i..][0] == items[i] && items[i..][1..] == items[i + 1..];
    if items[i].value == worker {
      TaskQueue.EnqueuedAllConcat(q, SliceOf(slicesById, items[i].key), rest);
      assert [] + rest == rest;
    }
  }

  /** The assignments once the first i have been looked at. */
  function Remaining(items: Dict<string>, i: nat, worker: string): Dict<string>
    requires i <= |items|
  {
    WithoutWorker(items[..i], worker) + items[i..]
  }

  function Removed(d: Dict<string>, key: string): Dict<string> {
    if d == [] then [] else if d[0].key == key then d[1..] else [d[0]] + Removed(d[1..], key)
  }

  lemma {:induction false} RemovedAfter(front: Dict<string>, item: Item<string>, back: Dict<string>)
    requires Lacks(front, item.key)
    ensures Removed(front + [item] + back, item.key) == front + back
  {
    if front == [] {
      assert front + [item] + back == [item] + back;
      assert front + back == back;
    } else {
      RemovedAfter(front[1..], item, back);
      assert (front + [item] + back)[1..] == front[1..] + [item] + back;
      assert front + back == [front[0]] + (front[1..] + back);
    }
  }

  lemma {:induction false} WithoutWorkerBack(items: Dict<string>, item: Item<string>, worker: string)
    ensures WithoutWorker(items + [item], worker) ==
      if item.value == worker then WithoutWorker(items, worker) else WithoutWorker(items, worker) + [item]
  {
    if items == [] {
      assert items + [item] == [item];
    } else {
      WithoutWorkerBack(items[1..], item, worker);
      assert (items + [item])[1..] == items[1..] + [item];
    }
  }

  ghost predicate Lacks(d: Dict<string>, key: string) {
    forall j :: 0 <= j < |d| ==> d[j].key != key
  }

  lemma {:induction false} WithoutWorkerKeys(items: Dict<string>, worker: string, key: string)
    requires Lacks(items, key)
    ensures Lacks(WithoutWorker(items, worker), key)
  {
    if items != [] {
      WithoutWorkerKeys(items[1..], worker, key);
      var r, rest := WithoutWorker(items, worker), WithoutWorker(items[1..], worker);
      if items[0].value == worker {
        assert r == rest;
      } else {
        assert r == [items[0]] + rest;
        assert forall j :: 0 < j < |r| ==> r[j] == rest[j - 1];
      }
    }
  }

  lemma RemainingStep(items: Dict<string>, i: nat, worker: string)
    requires DistinctKeys(items) && i < |items|
    ensures Remaining(items, i + 1, worker) ==
      if items[i].value == worker then Removed(Remaining(items, i, worker), items[i].key)
      else Remaining(items, i, worker)
    ensures items[i..][0] == items[i] && items[i..][1..] == items[i + 1..]
  {
    var front := WithoutWorker(items[..i], worker);
    assert items[..i + 1] == items[..i] + [items[i]];
    WithoutWorkerBack(items[..i], items[i], worker);
    assert items[i..] == [items[i]] + items[i + 1..];
    assert Remaining(items, i, worker) == front + [items[i]] + items[i + 1..];
    WithoutWorkerKeys(items[..i], worker, items[i].key);
    RemovedAfter(front, items[i], items[i + 1..]);
  }

  lemma {:induction false} WithoutWorkerDistinct(items: Dict<string>, worker: string)
    requires DistinctKeys(items)
    ensures DistinctKeys(WithoutWorker(items, worker))
  {
    if items != [] {
      WithoutWorkerDistinct(items[1..], worker);
      WithoutWorkerKeys(items[1..], worker, items[0].key);
      var r, rest := WithoutWorker(items, worker), WithoutWorker(items[1..], worker);
      if items[0].value == worker {
        assert r == rest;
      } else {
        assert r == [items[0]] + rest;
        assert forall j :: 0 < j < |r| ==> r[j] == rest[j - 1];
      }
    }
  }

  lemma RemainingAll(items: Dict<string>, worker: string)
    requires DistinctKeys(items)
    ensures Remaining(items, |items|, worker) == WithoutWorker(items, worker)
    ensures DistinctKeys(WithoutWorker(items, worker))
  {
    assert items[..|items|] == items;
    WithoutWorkerDistinct(items, worker);
  }

  class TaskTable {
    var records: seq<TaskRecord>

    /** Records have different task ids, so they are different objects, and the assignments of a
        record have different keys. */
    ghost predicate Valid()
      reads this, records
    {
      && (forall i, j :: 0 <= i < j < |records| ==> records[i].spec.taskId != records[j].spec.taskId)
      && (forall i :: 0 <= i < |records| ==> DistinctKeys(records[i].assignments))
    }

    /** The dictionary: records in the order in which their ids were first submitted. */
    ghost function View(): (d: Dict<Task>)
      reads this, records
      ensures |d| == |records|
      ensures forall i :: 0 <= i < |d| ==> d[i] == Item(records[i].spec.taskId, records[i].View())
    {
      seq(|records|, i requires 0 <= i < |records| reads this, records =>
        Item(records[i].spec.taskId, records[i].View()))
    }

    constructor ()
      ensures Valid() && View() == [] && records == []
    {
      records := [];
    }

    /** Updating one record in place is a dictionary update of the view. */
    twostate lemma OneChanged(i: nat)
      requires old(Valid()) && records == old(records) && i < |records|
      requires forall j :: 0 <= j < |records| && j != i ==> unchanged(records[j])
      requires DistinctKeys(records[i].assignments)
      ensures Valid() && View() == Put(old(View()), records[i].spec.taskId, records[i].View())
    {
      var before := old(View());
      PutAt(before, i, records[i].View());
      assert View() == before[i := Item(records[i].spec.taskId, records[i].View())];
    }

    method Find(id: string) returns (r: Option<nat>)
      requires Valid()
      ensures r == None ==> Get(View(), id) == None && forall i :: 0 <= i < |records| ==> records[i].spec.taskId != id
      ensures r.Some? ==> r.value < |records| && records[r.value].spec.taskId == id
      ensures r.Some? ==> Get(View(), id) == Some(records[r.value].View())
    {
      for i := 0 to |records|
        invariant forall j :: 0 <= j < i ==> records[j].spec.taskId != id
      {
        if records[i].spec.taskId == id {
          GetAt(View(), i);
          return Some(i);
        }
      }
      GetNone(View(), id);
      return None;
    }

    /** Replacing a record, or adding one under a new id, is one too. */
    twostate lemma OneReplaced(i: nat, new record: TaskRecord)
      requires old(Valid()) && i < old(|records|) && records == old(records)[i := record]
      requires record.spec.taskId == old(records)[i].spec.taskId && DistinctKeys(record.assignments)
      requires forall j :: 0 <= j < |records| && j != i ==> unchanged(records[j])
      ensures Valid() && View() == Put(old(View()), record.spec.taskId, record.View())
    {
      var before := old(View());
      PutAt(before, i, record.View());
      assert View() == before[i := Item(record.spec.taskId, record.View())];
    }

    twostate lemma OneAdded(new record: TaskRecord)
      requires old(Valid()) && records == old(records) + [record] && DistinctKeys(record.assignments)
      requires forall j :: 0 <= j < |old(records)| ==> old(records)[j].spec.taskId != record.spec.taskId
      requires forall j :: 0 <= j < |old(records)| ==> unchanged(old(records)[j])
      ensures Valid() && View() == Put(old(View()), record.spec.taskId, record.View())
    {
      var before := old(View());
      PutNew(before, record.spec.taskId, record.View());
      assert View() == before + [Item(record.spec.taskId, record.View())];
    }

    method Register(spec: TaskSpec)
      requires Valid()
      modifies this
      ensures Valid() && View() == Put(old(View()), spec.taskId, NewTask(spec))
      ensures forall t :: t in records ==> t in old(records) || fresh(t)
    {
      var r := Find(spec.taskId);
      var record := new TaskRecord(spec);
      if r.Some? {
        records := records[r.value := record];
        OneReplaced(r.value, record);
      } else {
        records := records + [record];
        OneAdded(record);
      }
    }

    // Each of the following updates the record stored under an id in place, if there is one.

    method Attach(id: string, slices: seq<TaskSpec>)
      requires Valid()
      modifies records
      ensures Valid() && View() == SlicesAttached(old(View()), id, slices)
    {
      var r := Find(id);
      if r.Some? {
        records[r.value].Attach(slices);
        OneChanged(r.value);
      }
    }

    method Assign(id: string, worker: string)
      requires Valid()
      modifies records
      ensures Valid() && View() == Assigned(old(View()), id, worker)
    {
      var r := Find(Parent(id));
      if r.Some? {
        PutKeepsDistinct(records[r.value].assignments, id, worker);
        records[r.value].Assign(id, worker);
        assert records[r.value].View().assignments == records[r.value].assignments;
        OneChanged(r.value);
      }
    }

    method Store(id: string, result: Outcome) returns (known: bool)
      requires Valid()
      modifies records
      ensures Valid() && View() == Stored(old(View()), id, result) && known == Has(old(View()), Parent(id))
    {
      var r := Find(Parent(id));
      if r == None {
        return false;
      }
      records[r.value].Store(id, result);
      OneChanged(r.value);
      return true;
    }

    method SetStatus(id: string, status: Status) returns (t: TaskRecord?)
      requires Valid()
      modifies records
      ensures Valid() && View() == StatusSet(old(View()), id, status)
      ensures t == null <==> !Has(old(View()), id)
      ensures t != null ==> t.View() == Get(old(View()), id).value.(status := status)
    {
      var r := Find(id);
      if r == None {
        return null;
      }
      t := records[r.value];
      t.SetStatus(status);
      OneChanged(r.value);
    }

    /** Both records of a submission, with no other call in between. */
    method RegisterAttached(spec: TaskSpec, slices: seq<TaskSpec>)
      requires Valid()
      modifies this, records
      ensures Valid() && View() == SlicesAttached(Put(old(View()), spec.taskId, NewTask(spec)), spec.taskId, slices)
    {
      Register(spec);
      assert forall j :: 0 <= j < |records| ==> records[j] in old(records) || fresh(records[j]);
      Attach(spec.taskId, slices);
    }

    /** Merges the task's results if as many reports as slices were counted. */
    method CompleteIfCounted(id: string) returns (t: TaskRecord?)
      requires Valid()
      modifies records
      ensures Valid()
      ensures var before := Get(old(View()), id);
              if before.Some? && before.value.completed == before.value.nSlices
              then t != null && t.View() == Merged(before.value) && View() == Put(old(View()), id, Merged(before.value))
              else t == null && View() == old(View())
    {
      var r := Find(id);
      if r == None || records[r.value].completed != records[r.value].nSlices {
        return null;
      }
      t := records[r.value];
      t.Complete();
      OneChanged(r.value);
    }

    /** Counts a retry if the failure allows one and some are left. */
    method RetryIfAllowed(id: string, retryable: bool) returns (t: TaskRecord?, retried: bool)
      requires Valid()
      modifies records
      ensures Valid() && (t == null <==> !Has(old(View()), id))
      ensures t != null ==> t.spec == Get(old(View()), id).value.spec
      ensures retried <==> t != null && retryable && Get(old(View()), id).value.retries < MAX_RETRIES
      ensures retried ==> View() == Retried(old(View()), id)
      ensures !retried ==> View() == old(View()) && (t != null ==> t.View() == Get(old(View()), id).value)
    {
      retried := false;
      var r := Find(id);
      if r == None {
        return null, false;
      }
      t := records[r.value];
      if retryable && t.retries < MAX_RETRIES {
        t.Retry();
        OneChanged(r.value);
        retried := true;
      }
    }

    method ReclaimAt(i: nat, worker: string, queue: TaskQueue.MemoryTaskQueue)
      requires Valid() && queue.Valid() && i < |records|
      modifies records, queue
      ensures Valid() && queue.Valid()
      ensures View() == old(View())[i := Item(old(View())[i].key, Unassigned(old(View())[i].value, worker))]
      ensures var t := old(View())[i].value;
              queue.Contents() ==
                TaskQueue.EnqueuedAll(old(queue.Contents()), Reclaimed(t.assignments, t.slicesById, worker))
    {
      records[i].Reclaim(worker, queue);
      assert records[i].View().assignments == records[i].assignments;
      OneChanged(i);
      PutAt(old(View()), i, records[i].View());
    }

    /** Puts all slices assigned to the worker back into the queue, task by task. */
    method Reassign(worker: string, queue: TaskQueue.MemoryTaskQueue)
      requires Valid() && queue.Valid()
      modifies records, queue
      ensures Valid() && queue.Valid()
      ensures View() == AllUnassigned(old(View()), worker)
      ensures queue.Contents() == TaskQueue.EnqueuedAll(old(queue.Contents()), AllReclaimed(old(View()), worker))
    {
      ghost var before := View();
      ghost var target := TaskQueue.EnqueuedAll(queue.Contents(), AllReclaimed(before, worker));
      for i := 0 to |records|
        invariant Valid() && queue.Valid()
        invariant PartlyUnassigned(before, View(), i, worker)
        invariant TaskQueue.EnqueuedAll(queue.Contents(), AllReclaimed(before[i..], worker)) == target
      {
        ReclaimedFront(before, i, worker, queue.Contents());
        ReclaimAt(i, worker, queue);
      }
      assert before[|records|..] == [];
      AllUnassignedIs(before, View(), worker);
    }
  }

  /** The first i tasks have lost the worker's assignments, the others are as before. */
  ghost predicate PartlyUnassigned(tasks: Dict<Task>, after: Dict<Task>, i: nat, worker: string) {
    && |after| == |tasks|
    && (forall j :: 0 <= j < i && j < |tasks| ==> after[j] == Item(tasks[j].key, Unassigned(tasks[j].value, worker)))
    && (forall j :: i <= j < |tasks| ==> after[j] == tasks[j])
  }

  lemma ReclaimedFront(tasks: Dict<Task>, i: nat, worker: string, q: seq<TaskQueue.Keyed>)
    requires i < |tasks|
    ensures var t := tasks[i].value;
            TaskQueue.EnqueuedAll(q, AllReclaimed(tasks[i..], worker)) ==
              TaskQueue.EnqueuedAll(TaskQueue.EnqueuedAll(q, Reclaimed(t.assignments, t.slicesById, worker)),
                                    AllReclaimed(tasks[i + 1..], worker))
  {
    var t := tasks[i].value;
    assert tasks[i..][0] == tasks[i] && tasks[i..][1..] == tasks[i + 1..];
    TaskQueue.EnqueuedAllConcat(q, Reclaimed(t.assignments, t.slicesById, worker),
                                AllReclaimed(tasks[i + 1..], worker));
  }

  lemma {:induction false} AllUnassignedIs(tasks: Dict<Task>, after: Dict<Task>, worker: string)
    requires |after| == |tasks|
    requires forall j :: 0 <= j < |tasks| ==> after[j] == Item(tasks[j].key, Unassigned(tasks[j].value, worker))
    ensures after == AllUnassigned(tasks, worker)
  {
    if tasks != [] {
      AllUnassignedIs(tasks[1..], after[1..], worker);
      assert after == [after[0]] + after[1..];
    }
  }
}
