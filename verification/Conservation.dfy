// Nothing the dispatcher enqueues appears or disappears: every issued spec is
// queued, in some thread's hands, handed out, or was dropped by a scan; and the
// number of assignments of a task is bounded.
module Conservation {
  import opened Protocol
  import opened Dicts
  import opened SliceIds
  import opened Seqs
  import opened DispatcherModel
  import Shard
  import TaskQueue

  // ---------------------------------------------------------------- where specs are

  /** How often an id occurs. */
  function Count(ids: seq<string>, id: string): nat {
    if ids == [] then 0
    else Count(ids[1..], id) + if ids[0] == id then 1 else 0
  }

  /** How many specs with the id are queued. */
  function Queued(q: seq<TaskQueue.Keyed>, id: string): nat {
    if q == [] then 0
    else Queued(q[1..], id) + if q[0].spec.taskId == id then 1 else 0
  }

  /** Specs a thread took from the queue and has neither handed out nor put back. */
  function Taken(t: Thread): seq<TaskSpec> {
    match t
    case Scanning(_, _, skipped) => skipped
    case PuttingBack(rest) => rest
    case Holding(_, spec) => [spec]
    case _ => []
  }

  function InHand(threads: seq<Thread>, id: string): nat {
    if threads == [] then 0 else Count(Ids(Taken(threads[0])), id) + InHand(threads[1..], id)
  }

  function Places(m: Machine, id: string): nat {
    Queued(m.shared.queue, id) + InHand(m.threads, id) + Count(m.log.handed, id) + Count(m.log.dropped, id)
  }

  /** Every issued spec is in exactly one place. */
  ghost predicate Accounted(m: Machine) {
    forall id :: Count(m.log.issued, id) == Places(m, id)
  }

  lemma {:induction false} CountConcat(a: seq<string>, b: seq<string>, id: string)
    ensures Count(a + b, id) == Count(a, id) + Count(b, id)
  {
    if a == [] {
      assert a + b == b;
    } else {
      CountConcat(a[1..], b, id);
      assert (a + b)[1..] == a[1..] + b;
    }
  }

  lemma CountOne(ids: seq<string>, x: string, id: string)
    ensures Count(ids + [x], id) == Count(ids, id) + if x == id then 1 else 0
  {
    CountConcat(ids, [x], id);
    assert Count([x], id) == Count([], id) + if x == id then 1 else 0;
  }

  lemma {:induction false} CountIs(ids: seq<string>, id: string)
    ensures Count(ids, id) == multiset(ids)[id]
  {
    if ids != [] {
      CountIs(ids[1..], id);
      assert ids == [ids[0]] + ids[1..];
    }
  }

  lemma {:induction false} QueuedInsert(q: seq<TaskQueue.Keyed>, e: TaskQueue.Keyed, id: string)
    ensures Queued(TaskQueue.Insert(q, e), id) == Queued(q, id) + if e.spec.taskId == id then 1 else 0
  {
    if q == [] || e.key < q[0].key {
      assert ([e] + q)[1..] == q;
    } else {
      QueuedInsert(q[1..], e, id);
      assert TaskQueue.Insert(q, e)[1..] == TaskQueue.Insert(q[1..], e);
    }
  }

  lemma EnqueuedQueue(s: Shared, spec: TaskSpec, id: string)
    ensures Queued(Enqueued(s, spec).queue, id) == Queued(s.queue, id) + if spec.taskId == id then 1 else 0
  {
    QueuedInsert(s.queue, TaskQueue.Keyed(spec.dispatchSpec.priority, spec), id);
  }

  lemma CountFront(specs: seq<TaskSpec>, id: string)
    requires specs != []
    ensures Count(Ids(specs), id) == Count(Ids(specs[1..]), id) + if specs[0].taskId == id then 1 else 0
  {
    assert Ids(specs)[1..] == Ids(specs[1..]);
  }

  lemma CountBack(specs: seq<TaskSpec>, spec: TaskSpec, id: string)
    ensures Count(Ids(specs + [spec]), id) == Count(Ids(specs), id) + if spec.taskId == id then 1 else 0
  {
    assert Ids(specs + [spec]) == Ids(specs) + [spec.taskId];
    CountOne(Ids(specs), spec.taskId, id);
  }

  lemma {:induction false} InHandStarted(threads: seq<Thread>, t: Thread, id: string)
    ensures InHand(threads + [t], id) == InHand(threads, id) + Count(Ids(Taken(t)), id)
  {
    if threads == [] {
      assert threads + [t] == [t];
      assert InHand([t], id) == Count(Ids(Taken(t)), id) + InHand([], id);
    } else {
      InHandStarted(threads[1..], t, id);
      assert (threads + [t])[1..] == threads[1..] + [t];
    }
  }

  lemma {:induction false} InHandMoved(threads: seq<Thread>, i: nat, t: Thread, id: string)
    requires i < |threads|
    ensures InHand(threads[i := t], id) + Count(Ids(Taken(threads[i])), id) ==
      InHand(threads, id) + Count(Ids(Taken(t)), id)
  {
    if i == 0 {
      assert threads[i := t][1..] == threads[1..];
    } else {
      InHandMoved(threads[1..], i - 1, t, id);
      assert threads[i := t][1..] == threads[1..][i - 1 := t];
    }
  }

  lemma ScanTakesAccount(m: Machine, i: nat, id: string)
    requires i < |m.threads| && m.threads[i].Scanning? && m.shared.queue != []
    requires Capable(m.shared.queue[0].spec, m.threads[i].capabilities)
    ensures Places(Scanned(m, i), id) == Places(m, id)
  {
    var t, head := m.threads[i], m.shared.queue[0].spec;
    InHandMoved(m.threads, i, Holding(t.worker, head), id);
    CountFront([head], id);
    CountConcat(m.log.dropped, Ids(t.skipped), id);
  }

  lemma ScanSkipsAccount(m: Machine, i: nat, id: string)
    requires i < |m.threads| && m.threads[i].Scanning? && m.shared.queue != []
    requires !Capable(m.shared.queue[0].spec, m.threads[i].capabilities)
    ensures Places(Scanned(m, i), id) == Places(m, id)
  {
    var t, head := m.threads[i], m.shared.queue[0].spec;
    InHandMoved(m.threads, i, t.(skipped := t.skipped + [head]), id);
    CountBack(t.skipped, head, id);
  }

  lemma ScannedAccount(m: Machine, i: nat, id: string)
    requires i < |m.threads| && m.threads[i].Scanning?
    ensures Places(Scanned(m, i), id) == Places(m, id)
    ensures Scanned(m, i).log.issued == m.log.issued
  {
    if m.shared.queue == [] {
      InHandMoved(m.threads, i, PuttingBack(m.threads[i].skipped), id);
    } else if Capable(m.shared.queue[0].spec, m.threads[i].capabilities) {
      ScanTakesAccount(m, i, id);
    } else {
      ScanSkipsAccount(m, i, id);
    }
  }

  /** What is issued and not in a place stays what it was. */
  ghost predicate SameBalance(m: Machine, m': Machine, id: string) {
    Places(m', id) - Count(m'.log.issued, id) == Places(m, id) - Count(m.log.issued, id)
  }

  lemma RetryAccount(m: Machine, i: nat, id: string)
    requires i < |m.threads| && m.threads[i].DecidingRetry?
    ensures SameBalance(m, Advanced(m, i), id)
  {
    var parent, retryable := m.threads[i].parent, m.threads[i].retryable;
    InHandMoved(m.threads, i, Done, id);
    if Retries(m.shared, parent, retryable) {
      var t := Get(m.shared.tasks, parent).value;
      EnqueuedQueue(m.shared.(tasks := Retried(m.shared.tasks, parent)), t.spec, id);
      CountOne(m.log.issued, t.spec.taskId, id);
    }
  }

  lemma SendingAccount(m: Machine, i: nat, id: string)
    requires i < |m.threads| && (m.threads[i].Enqueuing? || m.threads[i].PuttingBack?)
    ensures SameBalance(m, Advanced(m, i), id)
  {
    var rest := m.threads[i].rest;
    InHandMoved(m.threads, i, Advanced(m, i).threads[i], id);
    if rest != [] {
      EnqueuedQueue(m.shared, rest[0], id);
      CountFront(rest, id);
      CountOne(m.log.issued, rest[0].taskId, id);
    }
  }

  lemma HoldingAccount(m: Machine, i: nat, id: string)
    requires i < |m.threads| && m.threads[i].Holding?
    ensures SameBalance(m, Advanced(m, i), id)
  {
    var spec := m.threads[i].spec;
    InHandMoved(m.threads, i, Done, id);
    CountFront([spec], id);
    CountOne(m.log.handed, spec.taskId, id);
  }

  lemma AdvancedAccount(m: Machine, i: nat, id: string)
    requires i < |m.threads|
    ensures SameBalance(m, Advanced(m, i), id)
  {
    match m.threads[i]
    case Enqueuing(_) => SendingAccount(m, i, id);
    case PuttingBack(_) => SendingAccount(m, i, id);
    case Scanning(_, _, _) => ScannedAccount(m, i, id);
    case Holding(_, _) => HoldingAccount(m, i, id);
    case DecidingRetry(_, _) => RetryAccount(m, i, id);
    case _ => InHandMoved(m.threads, i, Advanced(m, i).threads[i], id);
  }

  lemma StartedAccount(m: Machine, s: Shared, t: Thread, id: string)
    requires s.queue == m.shared.queue && Taken(t) == []
    ensures Places(Started(m, s, t), id) == Places(m, id)
  {
    InHandStarted(m.threads, t, id);
  }

  lemma CallAccount(m: Machine, op: Op, id: string)
    requires !op.Advance?
    ensures Places(Step(m, op), id) == Places(m, id) && Step(m, op).log.issued == m.log.issued
  {
    match op
    case Submit(spec) => StartedAccount(m, Registered(m.shared, spec), Attaching(spec), id);
    case Assign(worker, capabilities) => StartedAccount(m, m.shared, Scanning(worker, capabilities, []), id);
    case Complete(x, result) =>
      StartedAccount(m, ResultStored(m.shared, x, result), CheckingCompletion(Parent(x)), id);
    case Fail(x, retryable) => StartedAccount(m, FailureNoted(m.shared, x), DecidingRetry(Parent(x), retryable), id);
    case Timeout(worker) =>
      StartedAccount(m, WorkerForgotten(m.shared, worker), Enqueuing(AllReclaimed(m.shared.tasks, worker)), id);
    case Cancel(_) =>
  }

  lemma StepAccount(m: Machine, op: Op, id: string)
    ensures SameBalance(m, Step(m, op), id)
  {
    if !op.Advance? {
      CallAccount(m, op, id);
    } else if op.thread < |m.threads| {
      AdvancedAccount(m, op.thread, id);
    }
  }

  /** In every run, under every interleaving, each issued spec is queued, in a thread's hands,
      handed out, or dropped, and in exactly one of these places. */
  lemma {:induction false} RunAccounted(m: Machine, ops: seq<Op>)
    requires Accounted(m)
    ensures Accounted(Run(m, ops))
    decreases ops
  {
    if ops != [] {
      forall id
        ensures Count(Step(m, ops[0]).log.issued, id) == Places(Step(m, ops[0]), id)
      {
        StepAccount(m, ops[0], id);
      }
      RunAccounted(Step(m, ops[0]), ops[1..]);
    }
  }

  // ---------------------------------------------------------------- ids routed to a task

  /** The ids routed to a task. */
  function For(ids: seq<string>, task: string): seq<string> {
    if ids == [] then []
    else if Parent(ids[0]) == task then [ids[0]] + For(ids[1..], task)
    else For(ids[1..], task)
  }

  lemma {:induction false} ForConcat(a: seq<string>, b: seq<string>, task: string)
    ensures For(a + b, task) == For(a, task) + For(b, task)
  {
    if a == [] {
      assert a + b == b;
    } else {
      ForConcat(a[1..], b, task);
      assert (a + b)[1..] == a[1..] + b;
    }
  }

  lemma {:induction false} ForMember(ids: seq<string>, task: string, id: string)
    ensures id in For(ids, task) <==> id in ids && Parent(id) == task
  {
    if ids != [] {
      ForMember(ids[1..], task, id);
    }
  }

  lemma {:induction false} ForRemoved(ids: seq<string>, i: nat, task: string)
    requires i < |ids|
    ensures |For(ids, task)| == |For(ids[..i] + ids[i + 1..], task)| + if Parent(ids[i]) == task then 1 else 0
  {
    assert ids == ids[..i] + ([ids[i]] + ids[i + 1..]);
    ForConcat(ids[..i], [ids[i]] + ids[i + 1..], task);
    ForConcat([ids[i]], ids[i + 1..], task);
    ForConcat(ids[..i], ids[i + 1..], task);
    assert For([ids[i]], task) == if Parent(ids[i]) == task then [ids[i]] else [];
  }

  lemma {:induction false} ForFewer(a: seq<string>, b: seq<string>, task: string)
    requires multiset(a) <= multiset(b)
    ensures |For(a, task)| <= |For(b, task)|
    decreases |a|
  {
    if a != [] {
      var x := a[0];
      assert a == [x] + a[1..];
      assert x in multiset(b);
      var i :| 0 <= i < |b| && b[i] == x;
      assert b == b[..i] + [x] + b[i + 1..];
      assert multiset(b[..i] + b[i + 1..]) == multiset(b) - multiset{x};
      ForFewer(a[1..], b[..i] + b[i + 1..], task);
      ForRemoved(b, i, task);
    }
  }

  // ---------------------------------------------------------------- work per task

  /** The id is new and contains no "-s", like the UUIDs the clients generate. */
  predicate Fresh(m: Machine, op: Op) {
    op.Submit? ==> !Has(m.shared.tasks, op.spec.taskId) && !HasMarker(op.spec.taskId)
  }

  predicate AllFresh(m: Machine, ops: seq<Op>)
    decreases ops
  {
    ops == [] || (Fresh(m, ops[0]) && AllFresh(Step(m, ops[0]), ops[1..]))
  }

  /** Slices of the task that its submission or a timeout has still to enqueue. */
  function UnsentBy(t: Thread, task: string): nat {
    match t
    case Attaching(spec) => if spec.taskId == task then |Shard.ShardTask(spec)| else 0
    case Enqueuing(rest) => |For(Ids(rest), task)|
    case _ => 0
  }

  function Unsent(threads: seq<Thread>, task: string): nat {
    if threads == [] then 0 else UnsentBy(threads[0], task) + Unsent(threads[1..], task)
  }

  /** Enqueues a task calls for: one per slice and one per retry. */
  function Planned(s: Shared, task: string): nat {
    match Get(s.tasks, task) case None => 0 case Some(t) => |Shard.ShardTask(t.spec)| + t.retries
  }

  ghost predicate Balanced(m: Machine, task: string) {
    |For(m.log.issued, task)| + Unsent(m.threads, task) == Planned(m.shared, task) + |For(m.log.reclaimed, task)|
  }

  /** Tasks are stored under their own, marker-free ids. */
  ghost predicate WellNamed(m: Machine) {
    && (forall id :: Has(m.shared.tasks, id) ==> Get(m.shared.tasks, id).value.spec.taskId == id && !HasMarker(id))
    && (forall i :: 0 <= i < |m.threads| && m.threads[i].Attaching? ==> !HasMarker(m.threads[i].spec.taskId))
  }

  lemma AdvancedWellNamed(m: Machine, i: nat)
    requires WellNamed(m) && i < |m.threads|
    ensures WellNamed(Advanced(m, i))
  {
    forall id
      ensures Has(Advanced(m, i).shared.tasks, id) ==> SameTask(m.shared, Advanced(m, i).shared, id)
    {
      AdvancedKeeps(m, i, id);
    }
    AdvancedStarts(m, i);
  }

  /** No thread turns into a submission. */
  lemma AdvancedStarts(m: Machine, i: nat)
    requires i < |m.threads|
    ensures |Advanced(m, i).threads| == |m.threads|
    ensures forall k :: 0 <= k < |m.threads| && Advanced(m, i).threads[k].Attaching? ==>
      Advanced(m, i).threads[k] == m.threads[k]
  {
  }

  lemma StepWellNamed(m: Machine, op: Op)
    requires WellNamed(m) && Fresh(m, op)
    ensures WellNamed(Step(m, op))
  {
    if op.Advance? && op.thread < |m.threads| {
      AdvancedWellNamed(m, op.thread);
    }
  }

  lemma {:induction false} ForAll(ids: seq<string>, task: string)
    ensures (forall i :: 0 <= i < |ids| ==> Parent(ids[i]) == task) ==> For(ids, task) == ids
    ensures (forall i :: 0 <= i < |ids| ==> Parent(ids[i]) != task) ==> For(ids, task) == []
  {
    if ids != [] {
      ForAll(ids[1..], task);
      assert ids == [ids[0]] + ids[1..];
    }
  }

  /** All slices of a task are routed to it. */
  lemma SlicesRouted(spec: TaskSpec, task: string)
    requires !HasMarker(spec.taskId)
    ensures For(Ids(Shard.ShardTask(spec)), task) == if spec.taskId == task then Ids(Shard.ShardTask(spec)) else []
  {
    var slices := Shard.ShardTask(spec);
    forall i | 0 <= i < |slices|
      ensures Parent(Ids(slices)[i]) == spec.taskId
    {
      Shard.ShardIds(spec, i);
    }
    ForAll(Ids(slices), task);
  }

  lemma {:induction false} UnsentStarted(threads: seq<Thread>, t: Thread, task: string)
    ensures Unsent(threads + [t], task) == Unsent(threads, task) + UnsentBy(t, task)
  {
    if threads == [] {
      assert threads + [t] == [t];
      assert Unsent([t], task) == UnsentBy(t, task) + Unsent([], task);
    } else {
      UnsentStarted(threads[1..], t, task);
      assert (threads + [t])[1..] == threads[1..] + [t];
    }
  }

  lemma {:induction false} UnsentMoved(threads: seq<Thread>, i: nat, t: Thread, task: string)
    requires i < |threads|
    ensures Unsent(threads[i := t], task) + UnsentBy(threads[i], task) == Unsent(threads, task) + UnsentBy(t, task)
  {
    if i == 0 {
      assert threads[i := t][1..] == threads[1..];
    } else {
      UnsentMoved(threads[1..], i - 1, t, task);
      assert threads[i := t][1..] == threads[1..][i - 1 := t];
    }
  }

  lemma ForOne(ids: seq<string>, id: string, task: string)
    ensures For(ids + [id], task) == if Parent(id) == task then For(ids, task) + [id] else For(ids, task)
  {
    ForConcat(ids, [id], task);
    assert For([id], task) == if Parent(id) == task then [id] else [];
  }

  lemma AttachingBalanced(m: Machine, i: nat, task: string)
    requires WellNamed(m) && i < |m.threads| && m.threads[i].Attaching? && Balanced(m, task)
    ensures Balanced(Advanced(m, i), task)
  {
    var spec := m.threads[i].spec;
    UnsentMoved(m.threads, i, Enqueuing(Shard.ShardTask(spec)), task);
    SlicesRouted(spec, task);
    assert Planned(Attached(m.shared, spec), task) == Planned(m.shared, task);
  }

  lemma EnqueuingBalanced(m: Machine, i: nat, task: string)
    requires i < |m.threads| && m.threads[i].Enqueuing? && Balanced(m, task)
    ensures Balanced(Advanced(m, i), task)
  {
    var rest := m.threads[i].rest;
    UnsentMoved(m.threads, i, Advanced(m, i).threads[i], task);
    if rest != [] {
      ForOne(m.log.issued, rest[0].taskId, task);
      assert Ids(rest)[1..] == Ids(rest[1..]);
    }
  }

  lemma RetryBalanced(m: Machine, i: nat, task: string)
    requires WellNamed(m) && i < |m.threads| && m.threads[i].DecidingRetry? && Balanced(m, task)
    ensures Balanced(Advanced(m, i), task)
  {
    var parent, retryable := m.threads[i].parent, m.threads[i].retryable;
    UnsentMoved(m.threads, i, Done, task);
    if Retries(m.shared, parent, retryable) {
      ForOne(m.log.issued, parent, task);
      SelfRoutedIff(parent);
    }
  }

  lemma OtherPlanned(m: Machine, i: nat, task: string)
    requires i < |m.threads| && !m.threads[i].Attaching? && !m.threads[i].Enqueuing? && !m.threads[i].DecidingRetry?
    ensures Planned(Advanced(m, i).shared, task) == Planned(m.shared, task)
    ensures Advanced(m, i).log.issued == m.log.issued && Advanced(m, i).log.reclaimed == m.log.reclaimed
    ensures exists t :: Advanced(m, i).threads == m.threads[i := t] && UnsentBy(t, task) == 0
  {
    var t := Advanced(m, i).threads[i];
    assert Advanced(m, i).threads == m.threads[i := t] && UnsentBy(t, task) == 0;
  }

  lemma OtherBalanced(m: Machine, i: nat, task: string)
    requires i < |m.threads| && !m.threads[i].Attaching? && !m.threads[i].Enqueuing? && !m.threads[i].DecidingRetry?
    requires Balanced(m, task)
    ensures Balanced(Advanced(m, i), task)
  {
    OtherPlanned(m, i, task);
    var t :| Advanced(m, i).threads == m.threads[i := t] && UnsentBy(t, task) == 0;
    UnsentMoved(m.threads, i, t, task);
  }

  lemma AdvancedBalanced(m: Machine, i: nat, task: string)
    requires WellNamed(m) && i < |m.threads| && Balanced(m, task)
    ensures Balanced(Advanced(m, i), task)
  {
    if m.threads[i].Attaching? {
      AttachingBalanced(m, i, task);
    } else if m.threads[i].Enqueuing? {
      EnqueuingBalanced(m, i, task);
    } else if m.threads[i].DecidingRetry? {
      RetryBalanced(m, i, task);
    } else {
      OtherBalanced(m, i, task);
    }
  }

  lemma TimeoutBalanced(m: Machine, worker: string, task: string)
    requires Balanced(m, task)
    ensures Balanced(Step(m, Timeout(worker)), task)
  {
    var specs := AllReclaimed(m.shared.tasks, worker);
    UnsentStarted(m.threads, Enqueuing(specs), task);
    ForConcat(m.log.reclaimed, Ids(specs), task);
  }

  lemma CallBalanced(m: Machine, op: Op, task: string)
    requires Fresh(m, op) && Balanced(m, task) && !op.Advance? && !op.Timeout?
    ensures Balanced(Step(m, op), task)
  {
    match op
    case Submit(spec) => UnsentStarted(m.threads, Attaching(spec), task);
    case Assign(worker, capabilities) => UnsentStarted(m.threads, Scanning(worker, capabilities, []), task);
    case Complete(id, _) => UnsentStarted(m.threads, CheckingCompletion(Parent(id)), task);
    case Fail(id, retryable) => UnsentStarted(m.threads, DecidingRetry(Parent(id), retryable), task);
    case Cancel(id) =>
  }

  lemma StepBalanced(m: Machine, op: Op, task: string)
    requires WellNamed(m) && Fresh(m, op) && Balanced(m, task)
    ensures Balanced(Step(m, op), task)
  {
    if op.Timeout? {
      TimeoutBalanced(m, op.worker, task);
    } else if !op.Advance? {
      CallBalanced(m, op, task);
    } else if op.thread < |m.threads| {
      AdvancedBalanced(m, op.thread, task);
    }
  }

  lemma {:induction false} RunBalanced(m: Machine, ops: seq<Op>, task: string)
    requires WellNamed(m) && AllFresh(m, ops) && Balanced(m, task)
    ensures WellNamed(Run(m, ops)) && Balanced(Run(m, ops), task)
    decreases ops
  {
    if ops != [] {
      StepWellNamed(m, ops[0]);
      StepBalanced(m, ops[0], task);
      RunBalanced(Step(m, ops[0]), ops[1..], task);
    }
  }

  /** No task is retried more than three times. */
  ghost predicate FewRetries(s: Shared) {
    forall id :: Has(s.tasks, id) ==> Get(s.tasks, id).value.retries <= MAX_RETRIES
  }

  lemma SectionFewRetries(s: Shared, id: string, worker: string, parent: string, retryable: bool)
    requires FewRetries(s)
    ensures FewRetries(AssignmentRecorded(s, id, worker))
    ensures FewRetries(CompletionChecked(s, parent))
    ensures FewRetries(RetryDecided(s, parent, retryable))
  {
  }

  lemma AdvancedFewRetries(m: Machine, i: nat)
    requires i < |m.threads| && FewRetries(m.shared)
    ensures FewRetries(Advanced(m, i).shared)
  {
    if QueueOnly(m.threads[i]) {
      QueueOnlyTasks(m, i);
    } else if m.threads[i].Attaching? {
      AttachingTasks(m, i);
    } else {
      RecordingTasks(m, i);
      match m.threads[i] {
        case Holding(worker, spec) => SectionFewRetries(m.shared, spec.taskId, worker, "", false);
        case CheckingCompletion(parent) => SectionFewRetries(m.shared, "", "", parent, false);
        case DecidingRetry(parent, retryable) => SectionFewRetries(m.shared, "", "", parent, retryable);
      }
    }
  }

  lemma StepFewRetries(m: Machine, op: Op)
    requires FewRetries(m.shared)
    ensures FewRetries(Step(m, op).shared)
  {
    if op.Advance? && op.thread < |m.threads| {
      AdvancedFewRetries(m, op.thread);
    }
  }

  lemma {:induction false} RunFewRetries(m: Machine, ops: seq<Op>)
    requires FewRetries(m.shared)
    ensures FewRetries(Run(m, ops).shared)
    decreases ops
  {
    if ops != [] {
      StepFewRetries(m, ops[0]);
      RunFewRetries(Step(m, ops[0]), ops[1..]);
    }
  }

  lemma {:induction false} NothingReclaimed(m: Machine, ops: seq<Op>)
    requires forall i :: 0 <= i < |ops| ==> !ops[i].Timeout?
    ensures Run(m, ops).log.reclaimed == m.log.reclaimed
    decreases ops
  {
    if ops != [] {
      NothingReclaimed(Step(m, ops[0]), ops[1..]);
    }
  }

  /** What was enqueued for a task, and how often it was assigned, in any run in which no task id
      is resubmitted: one enqueue per slice, per retry, and per slice taken back by a timeout, as far
      as threads have sent them; at most three retries; and no more assignments than that. */
  lemma WorkBounded(ops: seq<Op>, task: string)
    requires AllFresh(START, ops) && Has(Run(START, ops).shared.tasks, task)
    ensures var m := Run(START, ops);
            var t := Get(m.shared.tasks, task).value;
            var n := |Shard.ShardTask(t.spec)|;
            && |For(m.log.issued, task)| + Unsent(m.threads, task) == n + t.retries + |For(m.log.reclaimed, task)|
            && t.retries <= MAX_RETRIES
            && |For(m.log.handed, task)| <= |For(m.log.issued, task)|
            && ((forall i :: 0 <= i < |ops| ==> !ops[i].Timeout?) ==> |For(m.log.handed, task)| <= n + MAX_RETRIES)
  {
    RunBalanced(START, ops, task);
    RunFewRetries(START, ops);
    RunAccounted(START, ops);
    var m := Run(START, ops);
    forall id
      ensures multiset(m.log.handed)[id] <= multiset(m.log.issued)[id]
    {
      CountIs(m.log.handed, id);
      CountIs(m.log.issued, id);
    }
    ForFewer(m.log.handed, m.log.issued, task);
    if forall i :: 0 <= i < |ops| ==> !ops[i].Timeout? {
      NothingReclaimed(START, ops);
    }
  }
}
