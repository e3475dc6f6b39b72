// Protocol and worker registry together: which assigned slices a timeout check
// takes back, and which are stranded with a worker that has left.
module Fleet {
  import opened Protocol
  import opened Dicts
  import opened SliceIds
  import opened DispatcherModel
  import CompletionLimits
  import DispatcherRuns
  import Merge
  import Shard
  import SliceTracking
  import Workers

  /** pending: the silent workers of the last check whose slices are still to be taken back. */
  datatype Cluster = Cluster(m: Machine, ws: Workers.Registry, pending: seq<string>)

  const EMPTY_CLUSTER := Cluster(START, [], [])

  /** A section of a client or worker call, a call of the registry, a timeout check, and its taking
      back of the slices of the next silent worker. */
  datatype Event =
    | Do(op: Op)
    | Tell(call: Workers.Op)
    | Check(now: real, timeout: real)
    | TakeBack

  /** Timeouts come from checks only, and one check ends before the next begins. */
  predicate Enabled(c: Cluster, e: Event) {
    match e
    case Do(op) => !op.Timeout?
    case Tell(call) => !call.CheckTimeouts?
    case Check(_, _) => c.pending == []
    case TakeBack => c.pending != []
  }

  function Next(c: Cluster, e: Event): Cluster
    requires Enabled(c, e)
  {
    match e
    case Do(op) => c.(m := Step(c.m, op))
    case Tell(call) => c.(ws := Workers.Step(c.ws, call))
    case Check(now, timeout) =>
      c.(ws := Workers.Step(c.ws, Workers.CheckTimeouts(now, timeout)), pending := Workers.Silent(c.ws, now, timeout))
    case TakeBack => c.(m := Step(c.m, Timeout(c.pending[0])), pending := c.pending[1..])
  }

  predicate AllEnabled(c: Cluster, events: seq<Event>)
    decreases events
  {
    events == [] || (Enabled(c, events[0]) && AllEnabled(Next(c, events[0]), events[1..]))
  }

  function After(c: Cluster, events: seq<Event>): Cluster
    requires AllEnabled(c, events)
    decreases events
  {
    if events == [] then c else After(Next(c, events[0]), events[1..])
  }

  /** Who has the slice, as the task has it on record. */
  function HolderOf(m: Machine, task: string, id: string): Option<string> {
    match Get(m.shared.tasks, task) case None => None case Some(t) => Get(t.assignments, id)
  }

  // ---------------------------------------------------------------- what a check takes back

  lemma {:induction false} WithoutWorkerGet(assignments: Dict<string>, worker: string, id: string)
    requires DistinctKeys(assignments)
    ensures Get(WithoutWorker(assignments, worker), id) ==
      if Get(assignments, id) == Some(worker) then None else Get(assignments, id)
  {
    if assignments != [] {
      WithoutWorkerGet(assignments[1..], worker, id);
      var rest := WithoutWorker(assignments[1..], worker);
      assert ([assignments[0]] + rest)[1..] == rest;
      GetNone(assignments[1..], assignments[0].key);
    }
  }

  lemma {:induction false} WithoutWorkerDistinct(assignments: Dict<string>, worker: string)
    requires DistinctKeys(assignments)
    ensures DistinctKeys(WithoutWorker(assignments, worker))
    ensures forall i :: 0 <= i < |WithoutWorker(assignments, worker)| ==>
      exists j :: 0 <= j < |assignments| && assignments[j] == WithoutWorker(assignments, worker)[i]
  {
    if assignments != [] {
      WithoutWorkerDistinct(assignments[1..], worker);
      var r, rest := WithoutWorker(assignments, worker), WithoutWorker(assignments[1..], worker);
      forall i | 0 <= i < |rest|
        ensures exists j :: 0 < j < |assignments| && assignments[j] == rest[i]
      {
        var j :| 0 <= j < |assignments[1..]| && assignments[1..][j] == rest[i];
        assert assignments[j + 1] == rest[i];
      }
      if assignments[0].value != worker {
        assert r == [assignments[0]] + rest;
      }
    }
  }

  /** The assignments of the task are a dictionary, and its slices are found by id. */
  ghost predicate WellKept(t: Task) {
    DistinctKeys(t.assignments) && t.slicesById == ById(t.slices)
  }

  ghost predicate InPlace(m: Machine, task: string) {
    Has(m.shared.tasks, task) && WellKept(Get(m.shared.tasks, task).value)
  }

  /** Some thread is about to enqueue the slice. */
  predicate Returning(threads: seq<Thread>, slice: TaskSpec) {
    exists k :: 0 <= k < |threads| && threads[k].Enqueuing? && slice in threads[k].rest
  }

  lemma TimeoutTakesBack(m: Machine, worker: string, task: string, id: string)
    requires InPlace(m, task)
    ensures var m' := Step(m, Timeout(worker));
            && InPlace(m', task)
            && Get(m'.shared.tasks, task).value.slicesById == Get(m.shared.tasks, task).value.slicesById
            && HolderOf(m', task, id) == (if HolderOf(m, task, id) == Some(worker) then None else HolderOf(m, task, id))
            && |m'.threads| == |m.threads| + 1 && m'.threads[..|m.threads|] == m.threads
    ensures var t := Get(m.shared.tasks, task).value;
            HolderOf(m, task, id) == Some(worker) && Has(t.slicesById, id) ==>
              Returning(Step(m, Timeout(worker)).threads, Get(t.slicesById, id).value)
  {
    var t, m' := Get(m.shared.tasks, task).value, Step(m, Timeout(worker));
    WithoutWorkerGet(t.assignments, worker, id);
    WithoutWorkerDistinct(t.assignments, worker);
    if HolderOf(m, task, id) == Some(worker) && Has(t.slicesById, id) {
      CompletionLimits.ReclaimedAt(t.assignments, t.slicesById, worker, id);
      SliceTracking.ReclaimedByTask(m.shared.tasks, worker, task, Get(t.slicesById, id).value);
      assert m'.threads[|m.threads|] == Enqueuing(AllReclaimed(m.shared.tasks, worker));
    }
  }

  function Repeated(e: Event, n: nat): (r: seq<Event>)
    ensures |r| == n
  {
    if n == 0 then [] else [e] + Repeated(e, n - 1)
  }

  lemma {:induction false} TakingBack(c: Cluster, task: string, id: string)
    requires InPlace(c.m, task)
    ensures var events := Repeated(TakeBack, |c.pending|);
            && AllEnabled(c, events)
            && var c' := After(c, events);
               && InPlace(c'.m, task) && c'.pending == [] && c'.ws == c.ws
               && |c'.m.threads| >= |c.m.threads| && c'.m.threads[..|c.m.threads|] == c.m.threads
               && var holder := HolderOf(c.m, task, id);
                  HolderOf(c'.m, task, id) == if holder.Some? && holder.value in c.pending then None else holder
    ensures var c' := After(c, Repeated(TakeBack, |c.pending|));
            var t, holder := Get(c.m.shared.tasks, task).value, HolderOf(c.m, task, id);
            holder.Some? && holder.value in c.pending && Has(t.slicesById, id) ==>
              Returning(c'.m.threads, Get(t.slicesById, id).value)
    decreases |c.pending|
  {
    if c.pending != [] {
      var c1 := Next(c, TakeBack);
      var events, rest := Repeated(TakeBack, |c.pending|), Repeated(TakeBack, |c1.pending|);
      assert events == [TakeBack] + rest && events[1..] == rest;
      TimeoutTakesBack(c.m, c.pending[0], task, id);
      TakingBack(c1, task, id);
      var t := Get(c.m.shared.tasks, task).value;
      if HolderOf(c.m, task, id) == Some(c.pending[0]) && Has(t.slicesById, id) {
        var slice, c' := Get(t.slicesById, id).value, After(c, events);
        var k :| 0 <= k < |c1.m.threads| && c1.m.threads[k].Enqueuing? && slice in c1.m.threads[k].rest;
        assert c'.m.threads[k] == c1.m.threads[k];
      }
    }
  }

  /** The worker is registered, online or busy, and has been silent for longer than the timeout. */
  predicate SilentIn(ws: Workers.Registry, now: real, timeout: real, worker: string) {
    exists i :: 0 <= i < |ws| && ws[i].id == worker && Workers.TimedOut(ws[i], now, timeout)
  }

  lemma {:induction false} SilentMember(ws: Workers.Registry, now: real, timeout: real, worker: string)
    ensures worker in Workers.Silent(ws, now, timeout) <==> SilentIn(ws, now, timeout, worker)
  {
    if ws != [] {
      var front := ws[..|ws| - 1];
      SilentMember(front, now, timeout, worker);
      assert forall i :: 0 <= i < |front| ==> front[i] == ws[i];
    }
  }

  lemma AdvancedWellKept(m: Machine, i: nat, task: string)
    requires i < |m.threads| && InPlace(m, task)
    ensures InPlace(Advanced(m, i), task)
  {
    if QueueOnly(m.threads[i]) {
      QueueOnlyTasks(m, i);
    } else if m.threads[i].Attaching? {
      AttachingTasks(m, i);
    } else {
      RecordingTasks(m, i);
      if m.threads[i].Holding? {
        PutKeepsDistinct(Get(m.shared.tasks, task).value.assignments, m.threads[i].spec.taskId, m.threads[i].worker);
      }
    }
  }

  lemma StepWellKept(m: Machine, op: Op, task: string)
    requires Has(m.shared.tasks, task) ==> InPlace(m, task)
    ensures Has(Step(m, op).shared.tasks, task) ==> InPlace(Step(m, op), task)
  {
    if op.Timeout? {
      if Has(m.shared.tasks, task) {
        TimeoutTakesBack(m, op.worker, task, "");
      }
    } else if op.Advance? && op.thread < |m.threads| {
      AdvancedKeeps(m, op.thread, task);
      if Has(m.shared.tasks, task) {
        AdvancedWellKept(m, op.thread, task);
      }
    }
  }

  lemma {:induction false} ReachedWellKept(c: Cluster, events: seq<Event>, task: string)
    requires AllEnabled(c, events) && (Has(c.m.shared.tasks, task) ==> InPlace(c.m, task))
    ensures var c' := After(c, events); Has(c'.m.shared.tasks, task) ==> InPlace(c'.m, task)
    decreases events
  {
    if events != [] {
      match events[0] {
        case Do(op) => StepWellKept(c.m, op, task);
        case TakeBack => StepWellKept(c.m, Timeout(c.pending[0]), task);
        case _ =>
      }
      ReachedWellKept(Next(c, events[0]), events[1..], task);
    }
  }

  /** The check with all its taking back. */
  function CheckEvents(ws: Workers.Registry, now: real, timeout: real): seq<Event> {
    [Check(now, timeout)] + Repeated(TakeBack, |Workers.Silent(ws, now, timeout)|)
  }

  /** In every reachable state a timeout check takes an assigned slice off record, and sends it back
      to the queue, if and only if its worker is registered, online or busy, and silent for longer
      than the timeout. */
  lemma CheckTakesBackIff(history: seq<Event>, now: real, timeout: real, task: string, id: string)
    requires AllEnabled(EMPTY_CLUSTER, history) && After(EMPTY_CLUSTER, history).pending == []
    requires HolderOf(After(EMPTY_CLUSTER, history).m, task, id).Some?
    requires Has(Get(After(EMPTY_CLUSTER, history).m.shared.tasks, task).value.slicesById, id)
    ensures var c := After(EMPTY_CLUSTER, history);
            var events := CheckEvents(c.ws, now, timeout);
            && AllEnabled(c, events)
            && var c', worker := After(c, events), HolderOf(c.m, task, id).value;
               var silent := SilentIn(c.ws, now, timeout, worker);
               && HolderOf(c'.m, task, id) == (if silent then None else Some(worker))
               && (silent ==> Returning(c'.m.threads, Get(Get(c.m.shared.tasks, task).value.slicesById, id).value))
  {
    ReachedWellKept(EMPTY_CLUSTER, history, task);
    CheckTakesBack(After(EMPTY_CLUSTER, history), now, timeout, task, id);
  }

  lemma CheckTakesBack(c: Cluster, now: real, timeout: real, task: string, id: string)
    requires c.pending == [] && InPlace(c.m, task) && HolderOf(c.m, task, id).Some?
    requires Has(Get(c.m.shared.tasks, task).value.slicesById, id)
    ensures var events := CheckEvents(c.ws, now, timeout);
            && AllEnabled(c, events)
            && var c', worker := After(c, events), HolderOf(c.m, task, id).value;
               var silent := SilentIn(c.ws, now, timeout, worker);
               && HolderOf(c'.m, task, id) == (if silent then None else Some(worker))
               && (silent ==> Returning(c'.m.threads, Get(Get(c.m.shared.tasks, task).value.slicesById, id).value))
  {
    var c1 := Next(c, Check(now, timeout));
    var events := CheckEvents(c.ws, now, timeout);
    assert events[1..] == Repeated(TakeBack, |c1.pending|);
    SilentMember(c.ws, now, timeout, HolderOf(c.m, task, id).value);
    TakingBack(c1, task, id);
  }

  // ---------------------------------------------------------------- stranded slices

  /** No record of the worker is online or busy, and no check is about to take its slices back. */
  predicate Away(c: Cluster, worker: string) {
    && worker !in c.pending
    && forall i :: 0 <= i < |c.ws| && c.ws[i].id == worker ==> c.ws[i].status != "online" && c.ws[i].status != "busy"
  }

  /** The worker does not come back, the slice is not handed out once more and its task not
      submitted again. */
  predicate Apart(c: Cluster, e: Event, worker: string, task: string, id: string) {
    match e
    case Do(Submit(spec)) => spec.taskId != task
    case Do(Advance(i)) => !(i < |c.m.threads| && c.m.threads[i].Holding? && c.m.threads[i].spec.taskId == id)
    case Tell(Register(w, _, _)) => w != worker
    case Tell(Heartbeat(w, _, _)) => w != worker
    case Tell(Increment(w)) => w != worker
    case _ => true
  }

  predicate AllApart(c: Cluster, events: seq<Event>, worker: string, task: string, id: string)
    requires AllEnabled(c, events)
    decreases events
  {
    events == [] ||
    (Apart(c, events[0], worker, task, id) && AllApart(Next(c, events[0]), events[1..], worker, task, id))
  }

  lemma StaysAway(c: Cluster, e: Event, worker: string, task: string, id: string)
    requires Away(c, worker) && Enabled(c, e) && Apart(c, e, worker, task, id)
    ensures Away(Next(c, e), worker)
  {
    if e.Check? {
      SilentMember(c.ws, e.now, e.timeout, worker);
    }
  }

  lemma AdvancedHolder(m: Machine, i: nat, task: string, id: string)
    requires i < |m.threads| && Has(m.shared.tasks, task)
    requires !(m.threads[i].Holding? && m.threads[i].spec.taskId == id)
    ensures HolderOf(Advanced(m, i), task, id) == HolderOf(m, task, id) && Has(Advanced(m, i).shared.tasks, task)
  {
    if QueueOnly(m.threads[i]) {
      QueueOnlyTasks(m, i);
    } else if m.threads[i].Attaching? {
      AttachingTasks(m, i);
    } else {
      RecordingTasks(m, i);
    }
  }

  lemma CallHolder(m: Machine, op: Op, task: string, id: string)
    requires Has(m.shared.tasks, task) && !op.Timeout? && !op.Advance? && !(op.Submit? && op.spec.taskId == task)
    ensures HolderOf(Step(m, op), task, id) == HolderOf(m, task, id) && Has(Step(m, op).shared.tasks, task)
  {
  }

  lemma StaysHeld(c: Cluster, e: Event, worker: string, task: string, id: string)
    requires Away(c, worker) && Enabled(c, e) && Apart(c, e, worker, task, id)
    requires HolderOf(c.m, task, id) == Some(worker)
    ensures HolderOf(Next(c, e).m, task, id) == Some(worker)
  {
    match e
    case Do(op) =>
      if !op.Advance? {
        CallHolder(c.m, op, task, id);
      } else if op.thread < |c.m.threads| {
        AdvancedHolder(c.m, op.thread, task, id);
      }
    case TakeBack =>
      assert c.pending[0] != worker;
    case _ =>
  }

  /** A slice assigned to a worker that is away stays with it in every continuation in which the
      worker stays away and the slice is not handed out otherwise: no check ever takes it back. */
  lemma {:induction false} StrandedForever(c: Cluster, events: seq<Event>, worker: string, task: string, id: string)
    requires Away(c, worker) && HolderOf(c.m, task, id) == Some(worker)
    requires AllEnabled(c, events) && AllApart(c, events, worker, task, id)
    ensures Away(After(c, events), worker) && HolderOf(After(c, events).m, task, id) == Some(worker)
    decreases events
  {
    if events != [] {
      StaysAway(c, events[0], worker, task, id);
      StaysHeld(c, events[0], worker, task, id);
      StrandedForever(Next(c, events[0]), events[1..], worker, task, id);
    }
  }

  // ---------------------------------------------------------------- a worker that departs

  lemma {:induction false} EventsConcat(c: Cluster, a: seq<Event>, b: seq<Event>)
    requires AllEnabled(c, a) && AllEnabled(After(c, a), b)
    ensures AllEnabled(c, a + b) && After(c, a + b) == After(After(c, a), b)
    decreases a
  {
    if a == [] {
      assert a + b == b;
    } else {
      assert (a + b)[1..] == a[1..] + b;
      EventsConcat(Next(c, a[0]), a[1..], b);
    }
  }

  function DoAll(ops: seq<Op>): (events: seq<Event>)
    ensures |events| == |ops| && forall i :: 0 <= i < |ops| ==> events[i] == Do(ops[i])
  {
    seq(|ops|, i requires 0 <= i < |ops| => Do(ops[i]))
  }

  lemma {:induction false} DoneAll(c: Cluster, ops: seq<Op>)
    requires DispatcherRuns.NoTimeouts(ops)
    ensures AllEnabled(c, DoAll(ops)) && After(c, DoAll(ops)) == c.(m := Run(c.m, ops))
    decreases ops
  {
    if ops != [] {
      assert DoAll(ops)[0] == Do(ops[0]) && DoAll(ops)[1..] == DoAll(ops[1..]);
      DoneAll(Next(c, Do(ops[0])), ops[1..]);
    }
  }

  /** A worker registers, is handed the first slice of a task and leaves. */
  function Departure(worker: string, ops: seq<Op>): seq<Event> {
    [Tell(Workers.Register(worker, 1, 0.0))] + DoAll(ops) +
      [Tell(Workers.Increment(worker)), Tell(Workers.Unregister(worker))]
  }

  lemma Departed(worker: string)
    ensures var ws := Workers.Step([], Workers.Register(worker, 1, 0.0));
            var ws' := Workers.Step(Workers.Step(ws, Workers.Increment(worker)), Workers.Unregister(worker));
            |ws'| == 1 && ws'[0].id == worker && ws'[0].status == "offline"
  {
  }

  lemma DepartureEnds(worker: string, ops: seq<Op>)
    requires DispatcherRuns.NoTimeouts(ops)
    ensures AllEnabled(EMPTY_CLUSTER, Departure(worker, ops))
    ensures var c := After(EMPTY_CLUSTER, Departure(worker, ops)); c.m == Run(START, ops) && Away(c, worker)
  {
    var register := [Tell(Workers.Register(worker, 1, 0.0))];
    var leave := [Tell(Workers.Increment(worker)), Tell(Workers.Unregister(worker))];
    var c1 := Next(EMPTY_CLUSTER, register[0]);
    assert register[1..] == [];
    assert After(EMPTY_CLUSTER, register) == After(c1, []) == c1;
    DoneAll(c1, ops);
    EventsConcat(EMPTY_CLUSTER, register, DoAll(ops));
    var c2 := After(c1, DoAll(ops));
    var c3 := Next(c2, leave[0]);
    var c4 := Next(c3, leave[1]);
    assert leave[1..] == [leave[1]] && leave[1..][1..] == [];
    assert After(c2, leave) == After(c3, leave[1..]) == After(c4, []) == c4;
    EventsConcat(EMPTY_CLUSTER, register + DoAll(ops), leave);
    Departed(worker);
  }

  /** For any task with slices there is such a run: the slice is left with a worker that is away. */
  lemma DepartedWorkerStrands(spec: TaskSpec, worker: string, capabilities: seq<string>) returns (events: seq<Event>)
    requires !HasMarker(spec.taskId) && Capable(spec, capabilities) && Shard.ShardTask(spec) != []
    ensures AllEnabled(EMPTY_CLUSTER, events)
    ensures var c := After(EMPTY_CLUSTER, events);
            Away(c, worker) && HolderOf(c.m, spec.taskId, Shard.ShardTask(spec)[0].taskId) == Some(worker)
  {
    var results := seq(|Shard.ShardTask(spec)|, _ => Merge.Nothing);
    var submitting, m := DispatcherRuns.AloneSubmitted(spec, results);
    var handing, m' := DispatcherRuns.NextHandedOut(m, spec, results, 0, worker, capabilities);
    DispatcherRuns.RunConcat(START, submitting, handing);
    var ops := submitting + handing;
    DepartureEnds(worker, ops);
    events := Departure(worker, ops);
  }
}
