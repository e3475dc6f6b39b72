// The dispatcher object: its task table, queue, prefetch cache and worker
// registry. Each method runs without other threads in between; DispatcherModel
// interleaves the sections.
module Dispatcher {
  import opened Protocol
  import opened Dicts
  import opened SliceIds
  import opened DispatcherModel
  import DataCache
  import Prefetch
  import Shard
  import TaskQueue
  import TaskTable
  import Workers

  // ---------------------------------------------------------------- the assignment scan

  /** Position of the first queued spec the worker can run; the queue's length if there is none. */
  function FirstCapable(q: seq<TaskQueue.Keyed>, capabilities: seq<string>): (k: nat)
    ensures k <= |q|
    ensures forall j :: 0 <= j < k ==> !Capable(q[j].spec, capabilities)
    ensures k < |q| ==> Capable(q[k].spec, capabilities)
  {
    if q == [] || Capable(q[0].spec, capabilities) then 0 else 1 + FirstCapable(q[1..], capabilities)
  }

  lemma {:induction false} FirstCapableIs(q: seq<TaskQueue.Keyed>, capabilities: seq<string>, k: nat)
    requires k < |q| && Capable(q[k].spec, capabilities)
    requires forall j :: 0 <= j < k ==> !Capable(q[j].spec, capabilities)
    ensures FirstCapable(q, capabilities) == k
  {
    if k > 0 {
      FirstCapableIs(q[1..], capabilities, k - 1);
    }
  }

  /** A scan that skipped everything finds nothing; putting it back restores the queue. */
  lemma NothingCapable(q: seq<TaskQueue.Keyed>, skipped: seq<TaskSpec>, capabilities: seq<string>)
    requires TaskQueue.Sorted(q) && TaskQueue.KeyedByPriority(q) && |skipped| == |q|
    requires forall j :: 0 <= j < |q| ==> skipped[j] == q[j].spec && !Capable(q[j].spec, capabilities)
    ensures TaskQueue.EnqueuedAll([], skipped) == QueueAfterScan(q, capabilities) && Found(q, capabilities) == None
  {
    assert skipped == TaskQueue.Specs(q);
    TaskQueue.RequeuedIsUnchanged(q);
  }

  /** The queue after a scan, and what the scan took from it. */
  function QueueAfterScan(q: seq<TaskQueue.Keyed>, capabilities: seq<string>): seq<TaskQueue.Keyed> {
    var k := FirstCapable(q, capabilities);
    if k == |q| then q else q[k + 1..]
  }

  function Found(q: seq<TaskQueue.Keyed>, capabilities: seq<string>): Option<TaskSpec> {
    var k := FirstCapable(q, capabilities);
    if k == |q| then None else Some(q[k].spec)
  }

  /** The worker lists the type of the task, or takes any. */
  predicate Suits(spec: TaskSpec, capabilities: seq<string>) {
    exists c :: c in capabilities && (c == spec.computeSpec.taskType || c == "custom")
  }

  /** A scan finds the first queued spec that suits the worker, and nothing exactly when none does. */
  lemma ScanFinds(q: seq<TaskQueue.Keyed>, capabilities: seq<string>)
    ensures match Found(q, capabilities)
            case None =>
              QueueAfterScan(q, capabilities) == q && forall j :: 0 <= j < |q| ==> !Suits(q[j].spec, capabilities)
            case Some(spec) =>
              exists k :: 0 <= k < |q| && q[k].spec == spec && Suits(spec, capabilities) &&
                QueueAfterScan(q, capabilities) == q[k + 1..] &&
                forall j :: 0 <= j < k ==> !Suits(q[j].spec, capabilities)
  {
    assert forall j :: 0 <= j < |q| ==> (Suits(q[j].spec, capabilities) <==> Capable(q[j].spec, capabilities));
    var k := FirstCapable(q, capabilities);
    assert k < |q| ==> q[k].spec == Found(q, capabilities).value;
  }

  function OneOrNone(spec: Option<TaskSpec>): seq<TaskSpec> {
    match spec case None => [] case Some(s) => [s]
  }

  /** A scan keeps every spec queued or hands it out exactly when it finds nothing or finds the
      head of the queue; otherwise the specs it skipped are gone. */
  lemma ScanLosesNothingIff(q: seq<TaskQueue.Keyed>, capabilities: seq<string>)
    ensures var kept := TaskQueue.Specs(QueueAfterScan(q, capabilities)) + OneOrNone(Found(q, capabilities));
            multiset(kept) == multiset(TaskQueue.Specs(q)) <==>
              FirstCapable(q, capabilities) == 0 || FirstCapable(q, capabilities) == |q|
  {
    var k, specs := FirstCapable(q, capabilities), TaskQueue.Specs(q);
    var kept := TaskQueue.Specs(QueueAfterScan(q, capabilities)) + OneOrNone(Found(q, capabilities));
    if k == |q| {
      assert kept == specs;
    } else if k == 0 {
      assert specs == [specs[0]] + specs[1..];
      assert TaskQueue.Specs(q[1..]) == specs[1..];
      assert kept == specs[1..] + [specs[0]];
    } else {
      assert |multiset(kept)| == |kept| && |multiset(specs)| == |specs|;
    }
  }

  // ---------------------------------------------------------------- assignments

  /** What a worker is sent: the spec without its inline data, and the data. */
  datatype Assignment = Assignment(spec: TaskSpec, dataRef: string, data: Result<Bytes>)

  function Stripped(spec: TaskSpec): TaskSpec {
    spec.(computeSpec := spec.computeSpec.(inlineData := Missing, inlineDataB64 := Missing))
  }

  /** What is handed out for a spec, given the cache. */
  function AssignmentOf(env: Prefetch.Env, c: DataCache.Cache, request: Prefetch.Request): Assignment {
    Assignment(Stripped(request.spec), DataCache.SCHEME + Prefetch.CacheKey(env, request.spec.dataSpec),
               match Prefetch.Served(env, c, request) case None => Err("cache miss") case Some(data) => Ok(data))
  }

  /** The data always comes along: the cached bytes, or else those of the uncached lookup. */
  lemma AssignmentCarriesData(env: Prefetch.Env, c: DataCache.Cache, request: Prefetch.Request)
    ensures AssignmentOf(env, c, request).data ==
      match DataCache.DataAt(c.entries, Prefetch.CacheKey(env, request.spec.dataSpec))
      case Some(cached) => Ok(cached)
      case None => Ok(env.encode(Prefetch.Lookup(env, request.spec)))
  {
    Prefetch.FetchAfterPrefetchNeverRaises(env, c, request);
  }

  /** An assignment sends the task without its inline data, and names the cache entry. Unless the key is
      cached, it carries the data given inline, whatever symbols there are beside them; failing those
      the inline data in base 64; failing those what the storage has for the symbols; and the encoding
      of the absent value when there are no symbols either. */
  lemma AssignmentSource(env: Prefetch.Env, c: DataCache.Cache, request: Prefetch.Request)
    ensures var spec, a := request.spec, AssignmentOf(env, c, request);
            var cs, data := spec.computeSpec, a.data;
            && a.dataRef == "cache://" + Prefetch.CacheKey(env, spec.dataSpec)
            && a.spec == spec.(computeSpec := cs.(inlineData := Missing, inlineDataB64 := Missing))
            && (DataCache.DataAt(c.entries, Prefetch.CacheKey(env, spec.dataSpec)) == None ==>
                 data == Ok(env.encode(
                   if cs.inlineData != Missing then cs.inlineData
                   else if cs.inlineDataB64 != Missing then cs.inlineDataB64
                   else if spec.dataSpec.symbols != [] then env.storage(spec.dataSpec)
                   else Missing)))
  {
    AssignmentCarriesData(env, c, request);
  }

  // ---------------------------------------------------------------- timeouts

  function AllReassigned(s: Shared, ids: seq<string>): Shared
    decreases ids
  {
    if ids == [] then s else AllReassigned(Reassigned(s, ids[0]), ids[1..])
  }

  datatype Metrics = Metrics(depth: nat, stats: Workers.Stats, scaleUp: bool, scaleDown: bool)

  class Dispatcher {
    const table: TaskTable.TaskTable
    const queue: TaskQueue.MemoryTaskQueue
    const cache: DataCache.DataCache
    const workers: Workers.WorkerRegistry
    const env: Prefetch.Env
    const offlineTimeout: real
    var history: seq<Past>

    ghost predicate Valid()
      reads this, table, table.records, queue, workers
    {
      table.Valid() && queue.Valid() && workers.Valid() && env.max == cache.max
    }

    ghost function View(): Shared
      reads this, table, table.records, queue
    {
      Shared(table.View(), queue.Contents(), history)
    }

    constructor (env: Prefetch.Env, cacheSizeMb: int, decodeBase64: string -> Bytes, offlineTimeout: real)
      requires env.max == cacheSizeMb * 1024 * 1024
      ensures Valid() && View() == START.shared && this.env == env && this.offlineTimeout == offlineTimeout
      ensures cache.View() == DataCache.EMPTY && workers.View() == []
    {
      table := new TaskTable.TaskTable();
      queue := new TaskQueue.MemoryTaskQueue();
      cache := new DataCache.DataCache(cacheSizeMb, decodeBase64);
      workers := new Workers.WorkerRegistry();
      this.env := env;
      this.offlineTimeout := offlineTimeout;
      history := [];
    }

    // -------------------------------------------------------------- client interface

    /** Submission, undisturbed: the task is recorded and all its slices are queued in order. */
    method Submit(spec: TaskSpec) returns (nSlices: nat)
      requires Valid()
      modifies table, table.records, queue
      ensures Valid() && nSlices == |Shard.ShardTask(spec)|
      ensures View() == EnqueuedEach(Attached(Registered(old(View()), spec), spec), Shard.ShardTask(spec))
    {
      var slices := Shard.ShardTask(spec);
      table.RegisterAttached(spec, slices);
      ghost var tasks := table.View();
      EnqueueEach(slices);
      assert table.View() == tasks && table.Valid() && workers.Valid();
      return |slices|;
    }

    method EnqueueEach(specs: seq<TaskSpec>)
      requires queue.Valid()
      modifies queue
      ensures queue.Valid() && queue.Contents() == TaskQueue.EnqueuedAll(old(queue.Contents()), specs)
    {
      for i := 0 to |specs|
        invariant queue.Valid()
        invariant TaskQueue.EnqueuedAll(queue.Contents(), specs[i..]) ==
          TaskQueue.EnqueuedAll(old(queue.Contents()), specs)
      {
        assert specs[i..][1..] == specs[i + 1..];
        queue.Enqueue(specs[i]);
      }
    }

    method GetResult(id: string) returns (r: Result<Outcome>)
      requires Valid()
      ensures r == match Get(View().tasks, id)
                   case None => Err("not found")
                   case Some(t) => if t.status == COMPLETED then Ok(t.merged) else Err("not ready")
    {
      var i := table.Find(id);
      if i == None {
        return Err("not found");
      }
      var t := table.records[i.value];
      if t.status != COMPLETED {
        return Err("not ready");
      }
      return Ok(t.merged);
    }

    method Cancel(id: string) returns (found: bool)
      requires table.Valid()
      modifies this`history, table.records
      ensures table.Valid() && found == Has(old(table.View()), id)
      ensures table.View() == CancelledTask(old(View()), id).tasks && history == CancelledTask(old(View()), id).history
    {
      var t := table.SetStatus(id, CANCELLED);
      if t == null {
        return false;
      }
      RecordHistory(t);
      return true;
    }

    method RecordHistory(t: TaskTable.TaskRecord)
      modifies this`history
      ensures history == Remembered(old(history), t.View())
    {
      history := history + [PastOf(t.View())];
      if |history| > HISTORY_MAX {
        history := history[|history| - HISTORY_MAX..];
      }
    }

    // -------------------------------------------------------------- worker interface

    /** Takes the first capable spec from the queue. Specs before it are skipped; they are put back
        only when no spec is capable, and then the queue is exactly what it was. */
    method Scan(capabilities: seq<string>) returns (spec: Option<TaskSpec>)
      requires queue.Valid()
      modifies queue
      ensures queue.Valid()
      ensures queue.Contents() == QueueAfterScan(old(queue.Contents()), capabilities)
      ensures spec == Found(old(queue.Contents()), capabilities)
    {
      ghost var q := queue.Contents();
      queue.ContentsOrdered();
      var skipped: seq<TaskSpec> := [];
      while true
        invariant queue.Valid() && |skipped| <= |q|
        invariant forall j :: 0 <= j < |skipped| ==> skipped[j] == q[j].spec && !Capable(q[j].spec, capabilities)
        invariant queue.Contents() == q[|skipped|..]
        decreases |q| - |skipped|
      {
        spec := queue.Dequeue();
        if spec == None {
          NothingCapable(q, skipped, capabilities);
          EnqueueEach(skipped);
          return;
        }
        if Capable(spec.value, capabilities) {
          FirstCapableIs(q, capabilities, |skipped|);
          return;
        }
        skipped := skipped + [spec.value];
      }
    }

    /** Assignment: the first capable spec in queue order is handed out with its data and recorded. */
    method AssignTask(worker: string, capabilities: seq<string>, now: real, later: real) returns (r: Option<Assignment>)
      requires Valid()
      modifies queue, cache, workers.workers, table.records
      ensures Valid()
      ensures var q := old(queue.Contents());
              && queue.Contents() == QueueAfterScan(q, capabilities)
              && match Found(q, capabilities)
                 case None =>
                   && r == None && table.View() == old(table.View())
                   && cache.View() == old(cache.View()) && workers.View() == old(workers.View())
                 case Some(spec) =>
                   && r == Some(AssignmentOf(env, old(cache.View()), Prefetch.Request(spec, now, later)))
                   && table.View() == AssignmentRecorded(old(View()), spec.taskId, worker).tasks
                   && cache.View() == Prefetch.Prefetched(env, old(cache.View()), Prefetch.Request(spec, now, later))
                   && workers.View() == Workers.Step(old(workers.View()), Workers.Increment(worker))
    {
      var spec := Scan(capabilities);
      if spec == None {
        return None;
      }
      var a := PrepareAssignment(spec.value, worker, now, later);
      return Some(a);
    }

    method PrepareAssignment(spec: TaskSpec, worker: string, now: real, later: real) returns (a: Assignment)
      requires Valid()
      modifies cache, workers.workers, table.records
      ensures Valid()
      ensures a == AssignmentOf(env, old(cache.View()), Prefetch.Request(spec, now, later))
      ensures table.View() == AssignmentRecorded(old(View()), spec.taskId, worker).tasks
      ensures cache.View() == Prefetch.Prefetched(env, old(cache.View()), Prefetch.Request(spec, now, later))
      ensures workers.View() == Workers.Step(old(workers.View()), Workers.Increment(worker))
    {
      var dataRef := PrefetchData(spec, now, later);
      assert table.View() == old(table.View()) && workers.View() == old(workers.View());
      ghost var prefetched := cache.View();
      RecordAssignment(spec.taskId, worker);
      assert cache.View() == prefetched && queue.Valid();
      var data := FetchData(spec, dataRef);
      return Assignment(Stripped(spec), dataRef, data);
    }

    method RecordAssignment(id: string, worker: string)
      requires table.Valid() && workers.Valid()
      modifies workers.workers, table.records
      ensures table.Valid() && workers.Valid() && table.View() == Assigned(old(table.View()), id, worker)
      ensures workers.View() == Workers.Step(old(workers.View()), Workers.Increment(worker))
    {
      table.Assign(id, worker);
      ghost var tasks := table.View();
      assert workers.View() == old(workers.View());
      workers.IncrementActive(worker);
      assert table.View() == tasks && table.Valid();
    }

    method FetchData(spec: TaskSpec, dataRef: string) returns (data: Result<Bytes>)
      requires dataRef == DataCache.SCHEME + Prefetch.CacheKey(env, spec.dataSpec)
      ensures data == match DataCache.DataAt(cache.View().entries, Prefetch.CacheKey(env, spec.dataSpec))
                      case None => Err("cache miss") case Some(bytes) => Ok(bytes)
    {
      data := cache.FetchBytes(dataRef);
      assert dataRef[|DataCache.SCHEME|..] == Prefetch.CacheKey(env, spec.dataSpec);
    }

    method PrefetchData(spec: TaskSpec, now: real, later: real) returns (dataRef: string)
      requires Valid()
      modifies cache
      ensures Valid() && View() == old(View()) && workers.View() == old(workers.View())
      ensures cache.View() == Prefetch.Prefetched(env, old(cache.View()), Prefetch.Request(spec, now, later))
      ensures dataRef == DataCache.SCHEME + Prefetch.CacheKey(env, spec.dataSpec)
    {
      var key := Prefetch.CacheKey(env, spec.dataSpec);
      var cached := cache.GetRef(key, now);
      if cached.Some? {
        return cached.value;
      }
      var data := LookUp(spec);
      dataRef := cache.Put(key, env.encode(data), later);
    }

    /** The data themselves: inline, from storage, or absent. */
    method LookUp(spec: TaskSpec) returns (data: Data)
      ensures data == Prefetch.Lookup(env, spec)
    {
      var inline := spec.computeSpec.inlineData;
      if inline == Missing {
        inline := spec.computeSpec.inlineDataB64;
      }
      if inline != Missing {
        return inline;
      }
      if spec.dataSpec.symbols != [] {
        return env.storage(spec.dataSpec);
      }
      return Missing;
    }

    /** Completion, undisturbed: the report is stored, the worker relieved and the task merged
        when as many reports as slices were counted. */
    method OnComplete(worker: string, id: string, result: Outcome)
      requires Valid()
      modifies this`history, workers.workers, table.records
      ensures Valid() && View() == CompletionChecked(ResultStored(old(View()), id, result), Parent(id))
      ensures workers.View() == if Has(old(View()).tasks, Parent(id))
                then Workers.Step(old(workers.View()), Workers.Decrement(worker, true, false)) else old(workers.View())
    {
      var known := StoreResult(id, result);
      if known {
        RelieveAndCheck(worker, Parent(id));
      }
    }

    method RelieveAndCheck(worker: string, parent: string)
      requires Valid()
      modifies this`history, workers.workers, table.records
      ensures Valid() && View() == CompletionChecked(old(View()), parent)
      ensures workers.View() == Workers.Step(old(workers.View()), Workers.Decrement(worker, true, false))
    {
      RelieveWorker(worker, true, false);
      CheckCompletion(parent);
    }

    method StoreResult(id: string, result: Outcome) returns (known: bool)
      requires Valid()
      modifies table.records
      ensures Valid() && View() == ResultStored(old(View()), id, result) && known == Has(old(View()).tasks, Parent(id))
      ensures workers.View() == old(workers.View())
    {
      known := table.Store(id, result);
    }

    method RelieveWorker(worker: string, completed: bool, failed: bool)
      requires Valid()
      modifies workers.workers
      ensures Valid() && View() == old(View())
      ensures workers.View() == Workers.Step(old(workers.View()), Workers.Decrement(worker, completed, failed))
    {
      workers.DecrementActive(worker, completed, failed);
    }

    method CheckCompletion(parent: string)
      requires Valid()
      modifies this`history, table.records
      ensures Valid() && View() == CompletionChecked(old(View()), parent)
      ensures workers.View() == old(workers.View())
    {
      var t := table.CompleteIfCounted(parent);
      ghost var tasks := table.View();
      if t != null {
        RecordHistory(t);
      }
      assert table.View() == tasks;
    }

    /** Failure, undisturbed. */
    method OnFail(worker: string, id: string, retryable: bool)
      requires Valid()
      modifies this`history, queue, workers.workers, table.records
      ensures Valid() && View() == RetryDecided(FailureNoted(old(View()), id), Parent(id), retryable)
      ensures workers.View() == if Has(old(View()).tasks, Parent(id))
                then Workers.Step(old(workers.View()), Workers.Decrement(worker, false, true)) else old(workers.View())
    {
      var known := NoteFailure(id);
      if known {
        RelieveWorker(worker, false, true);
        DecideRetry(Parent(id), retryable);
      }
    }

    method NoteFailure(id: string) returns (known: bool)
      requires Valid()
      modifies table.records
      ensures Valid() && View() == FailureNoted(old(View()), id) && known == Has(old(View()).tasks, Parent(id))
      ensures workers.View() == old(workers.View())
    {
      var t := table.SetStatus(Parent(id), FAILED);
      known := t != null;
    }

    method DecideRetry(parent: string, retryable: bool)
      requires Valid()
      modifies this`history, queue, table.records
      ensures Valid() && View() == RetryDecided(old(View()), parent, retryable)
      ensures workers.View() == old(workers.View())
    {
      var t, retried := CountRetry(parent, retryable);
      if retried {
        EnqueueAgain(t.spec);
      } else if t != null {
        RecordHistory(t);
      }
    }

    method CountRetry(parent: string, retryable: bool) returns (t: TaskTable.TaskRecord?, retried: bool)
      requires Valid()
      modifies table.records
      ensures Valid() && workers.View() == old(workers.View())
      ensures t == null <==> !Has(old(View()).tasks, parent)
      ensures retried <==> Retries(old(View()), parent, retryable)
      ensures retried ==>
        t != null && t.spec == Get(old(View()).tasks, parent).value.spec &&
          View() == old(View()).(tasks := Retried(old(View()).tasks, parent))
      ensures !retried ==> View() == old(View()) && (t != null ==> t.View() == Get(old(View()).tasks, parent).value)
    {
      t, retried := table.RetryIfAllowed(parent, retryable);
    }

    method EnqueueAgain(spec: TaskSpec)
      requires Valid()
      modifies queue
      ensures Valid() && View() == Enqueued(old(View()), spec) && workers.View() == old(workers.View())
    {
      queue.Enqueue(spec);
    }

    // -------------------------------------------------------------- timeouts and scaling

    /** One round of the background checker: silent workers go offline and their slices back
        into the queue, worker by worker. */
    method CheckTimeouts(now: real) returns (ids: seq<string>)
      requires Valid()
      modifies queue, workers.workers, table.records
      ensures ids == Workers.Silent(old(workers.View()), now, offlineTimeout)
      ensures Valid() && View() == AllReassigned(old(View()), ids)
      ensures workers.View() == Workers.Step(old(workers.View()), Workers.CheckTimeouts(now, offlineTimeout))
    {
      ids := MarkSilent(now);
      ReassignEach(ids);
    }

    method MarkSilent(now: real) returns (ids: seq<string>)
      requires Valid()
      modifies workers.workers
      ensures Valid() && View() == old(View())
      ensures workers.View() == Workers.Step(old(workers.View()), Workers.CheckTimeouts(now, offlineTimeout))
      ensures ids == Workers.Silent(old(workers.View()), now, offlineTimeout)
    {
      ids := workers.CheckTimeouts(now, offlineTimeout);
    }

    method ReassignEach(ids: seq<string>)
      requires table.Valid() && queue.Valid()
      modifies queue, table.records
      ensures table.Valid() && queue.Valid() && View() == AllReassigned(old(View()), ids)
    {
      for i := 0 to |ids|
        invariant table.Valid() && queue.Valid()
        invariant AllReassigned(View(), ids[i..]) == AllReassigned(old(View()), ids)
      {
        assert ids[i..][1..] == ids[i + 1..];
        ReassignWorkerTasks(ids[i]);
      }
    }

    method ReassignWorkerTasks(worker: string)
      requires table.Valid() && queue.Valid()
      modifies queue, table.records
      ensures table.Valid() && queue.Valid() && View() == Reassigned(old(View()), worker)
    {
      table.Reassign(worker, queue);
    }

    method AutoscalerMetrics() returns (m: Metrics)
      requires Valid()
      ensures m.depth == |queue.Contents()| && m.stats == Workers.StatsOf(workers.View())
      ensures m.scaleUp == Workers.ScaleUp(m.depth, m.stats) && m.scaleDown == Workers.ScaleDown(m.depth, m.stats)
    {
      var stats := workers.ComputeStats();
      var depth := queue.Size();
      return Metrics(depth, stats, depth > 20 && stats.available == 0,
                     depth == 0 && stats.available > 0 && stats.active == 0);
    }
  }

  function EnqueuedEach(s: Shared, specs: seq<TaskSpec>): Shared {
    s.(queue := TaskQueue.EnqueuedAll(s.queue, specs))
  }
}
