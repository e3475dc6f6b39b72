// The dispatcher as a state machine. The shared state changes in critical
// sections; a client or worker call is a thread that runs its sections one at
// a time, with other threads running in between.
module DispatcherModel {
  import opened Protocol
  import opened Dicts
  import opened SliceIds
  import Merge
  import Shard
  import TaskQueue

  /** The result of one slice, decoded. */
  type Outcome = Merge.Payload<seq<real>>

  datatype Status = PENDING | RUNNING | COMPLETED | FAILED | CANCELLED

  datatype Task = Task(
    spec: TaskSpec,
    status: Status,
    nSlices: int,
    completed: nat,
    retries: nat,
    slices: seq<TaskSpec>,
    slicesById: Dict<TaskSpec>,
    assignments: Dict<string>,
    partials: Dict<Outcome>,
    merged: Outcome)

  /** An entry of the task history. */
  datatype Past = Past(taskId: string, taskType: string, status: Status)

  datatype Shared = Shared(tasks: Dict<Task>, queue: seq<TaskQueue.Keyed>, history: seq<Past>)

  const HISTORY_MAX := 1000
  const MAX_RETRIES := 3

  // ---------------------------------------------------------------- critical sections

  /** A task as submit first records it; it counts as one slice until its slices are attached. */
  function NewTask(spec: TaskSpec): Task {
    Task(spec, PENDING, 1, 0, 0, [], [], [], [], Merge.Nothing)
  }

  function Registered(s: Shared, spec: TaskSpec): Shared {
    s.(tasks := Put(s.tasks, spec.taskId, NewTask(spec)))
  }

  function ById(slices: seq<TaskSpec>): Dict<TaskSpec> {
    if slices == [] then []
    else
      var last := slices[|slices| - 1];
      Put(ById(slices[..|slices| - 1]), last.taskId, last)
  }

  function WithSlices(t: Task, slices: seq<TaskSpec>): Task {
    t.(slices := slices, nSlices := |slices|, slicesById := ById(slices))
  }

  function SlicesAttached(tasks: Dict<Task>, id: string, slices: seq<TaskSpec>): Dict<Task> {
    match Get(tasks, id)
    case None => tasks
    case Some(t) => Put(tasks, id, WithSlices(t, slices))
  }

  function Attached(s: Shared, spec: TaskSpec): Shared {
    s.(tasks := SlicesAttached(s.tasks, spec.taskId, Shard.ShardTask(spec)))
  }

  function Enqueued(s: Shared, spec: TaskSpec): Shared {
    s.(queue := TaskQueue.Enqueued(s.queue, spec))
  }

  function WithAssignment(t: Task, id: string, worker: string): Task {
    t.(assignments := Put(t.assignments, id, worker), status := if t.status == PENDING then RUNNING else t.status)
  }

  /** An assignment is recorded with the task its id is routed to, if there is one. */
  function Assigned(tasks: Dict<Task>, id: string, worker: string): Dict<Task> {
    match Get(tasks, Parent(id))
    case None => tasks
    case Some(t) => Put(tasks, Parent(id), WithAssignment(t, id, worker))
  }

  function AssignmentRecorded(s: Shared, id: string, worker: string): Shared {
    s.(tasks := Assigned(s.tasks, id, worker))
  }

  function WithResult(t: Task, id: string, result: Outcome): Task {
    t.(partials := Put(t.partials, id, result), completed := t.completed + 1)
  }

  function Stored(tasks: Dict<Task>, id: string, result: Outcome): Dict<Task> {
    match Get(tasks, Parent(id))
    case None => tasks
    case Some(t) => Put(tasks, Parent(id), WithResult(t, id, result))
  }

  /** First section of a completion: the report is stored and counted. */
  function ResultStored(s: Shared, id: string, result: Outcome): Shared {
    s.(tasks := Stored(s.tasks, id, result))
  }

  function Merged(t: Task): Task {
    t.(merged := Merge.MergeResults(t.spec.computeSpec.taskType, Values(t.partials)), status := COMPLETED)
  }

  function PastOf(t: Task): Past {
    Past(t.spec.taskId, t.spec.computeSpec.taskType, t.status)
  }

  /** The history keeps the most recent entries. */
  function Remembered(history: seq<Past>, t: Task): seq<Past> {
    var longer := history + [PastOf(t)];
    if |longer| > HISTORY_MAX then longer[|longer| - HISTORY_MAX..] else longer
  }

  /** Second section of a completion: the task is merged when as many reports as slices were counted. */
  function CompletionChecked(s: Shared, parent: string): Shared {
    match Get(s.tasks, parent)
    case None => s
    case Some(t) =>
      if t.completed == t.nSlices
      then s.(tasks := Put(s.tasks, parent, Merged(t)), history := Remembered(s.history, Merged(t)))
      else s
  }

  function StatusSet(tasks: Dict<Task>, id: string, status: Status): Dict<Task> {
    match Get(tasks, id)
    case None => tasks
    case Some(t) => Put(tasks, id, t.(status := status))
  }

  /** First section of a failure. */
  function FailureNoted(s: Shared, id: string): Shared {
    s.(tasks := StatusSet(s.tasks, Parent(id), FAILED))
  }

  predicate Retries(s: Shared, parent: string, retryable: bool) {
    retryable && Has(s.tasks, parent) && Get(s.tasks, parent).value.retries < MAX_RETRIES
  }

  function Retried(tasks: Dict<Task>, id: string): Dict<Task>
    requires Has(tasks, id)
  {
    var t := Get(tasks, id).value;
    Put(tasks, id, t.(retries := t.retries + 1, status := PENDING))
  }

  /** Second section of a failure: a retry enqueues the whole task again. */
  function RetryDecided(s: Shared, parent: string, retryable: bool): Shared {
    match Get(s.tasks, parent)
    case None => s
    case Some(t) =>
      if Retries(s, parent, retryable)
      then Enqueued(s.(tasks := Retried(s.tasks, parent)), t.spec)
      else s.(history := Remembered(s.history, t))
  }

  function CancelledTask(s: Shared, id: string): Shared {
    match Get(s.tasks, id)
    case None => s
    case Some(t) =>
      s.(tasks := StatusSet(s.tasks, id, CANCELLED),
         history := Remembered(s.history, t.(status := CANCELLED)))
  }

  function WithoutWorker(assignments: Dict<string>, worker: string): (r: Dict<string>)
    ensures forall k :: Get(assignments, k).Some? && Get(assignments, k).value != worker ==>
      Get(r, k) == Get(assignments, k)
  {
    if assignments == [] then []
    else if assignments[0].value == worker then WithoutWorker(assignments[1..], worker)
    else
      var rest := WithoutWorker(assignments[1..], worker);
      assert ([assignments[0]] + rest)[1..] == rest;
      [assignments[0]] + rest
  }

  /** What a timeout of the worker puts back for one task: its slices assigned to the worker,
      as far as their ids are those of slices. */
  function Reclaimed(assignments: Dict<string>, slicesById: Dict<TaskSpec>, worker: string): seq<TaskSpec> {
    if assignments == [] then []
    else if assignments[0].value == worker && Has(slicesById, assignments[0].key)
    then [Get(slicesById, assignments[0].key).value] + Reclaimed(assignments[1..], slicesById, worker)
    else Reclaimed(assignments[1..], slicesById, worker)
  }

  function AllReclaimed(tasks: Dict<Task>, worker: string): seq<TaskSpec> {
    if tasks == [] then []
    else Reclaimed(tasks[0].value.assignments, tasks[0].value.slicesById, worker) + AllReclaimed(tasks[1..], worker)
  }

  function Unassigned(t: Task, worker: string): Task {
    t.(assignments := WithoutWorker(t.assignments, worker))
  }

  function AllUnassigned(tasks: Dict<Task>, worker: string): (r: Dict<Task>)
    ensures forall k :: Get(r, k) == if Has(tasks, k) then Some(Unassigned(Get(tasks, k).value, worker)) else None
  {
    if tasks == [] then []
    else
      var rest := AllUnassigned(tasks[1..], worker);
      var first := Item(tasks[0].key, Unassigned(tasks[0].value, worker));
      assert ([first] + rest)[1..] == rest;
      [first] + rest
  }

  function WorkerForgotten(s: Shared, worker: string): Shared {
    s.(tasks := AllUnassigned(s.tasks, worker))
  }

  /** A timeout takes the worker's assignments off record and enqueues their slices. */
  function Reassigned(s: Shared, worker: string): Shared {
    WorkerForgotten(s, worker).(queue := TaskQueue.EnqueuedAll(s.queue, AllReclaimed(s.tasks, worker)))
  }

  // ---------------------------------------------------------------- threads

  /** Where a call in progress stands. */
  datatype Thread =
    | Done
    | Attaching(spec: TaskSpec)
    | Enqueuing(rest: seq<TaskSpec>)
    | Scanning(worker: string, capabilities: seq<string>, skipped: seq<TaskSpec>)
    | PuttingBack(rest: seq<TaskSpec>)
    | Holding(worker: string, spec: TaskSpec)
    | CheckingCompletion(parent: string)
    | DecidingRetry(parent: string, retryable: bool)

  /** What happened so far, for stating properties; the dispatcher itself keeps none of it.
      issued: ids of all specs enqueued other than by putting back skipped ones; reclaimed: ids
      taken back by timeouts, to be enqueued; handed: ids assigned; dropped: ids skipped by a scan
      that went on to match; reports: ids of counted completions; disturbed: tasks reported failed
      or cancelled. */
  datatype Log = Log(
    issued: seq<string>,
    reclaimed: seq<string>,
    handed: seq<string>,
    dropped: seq<string>,
    reports: seq<string>,
    disturbed: set<string>)

  datatype Machine = Machine(shared: Shared, threads: seq<Thread>, log: Log)

  const START := Machine(Shared([], [], []), [], Log([], [], [], [], [], {}))

  datatype Op =
    | Submit(spec: TaskSpec)
    | Assign(worker: string, capabilities: seq<string>)
    | Complete(id: string, result: Outcome)
    | Fail(id: string, retryable: bool)
    | Cancel(id: string)
    | Timeout(worker: string)
    | Advance(thread: nat)

  predicate Capable(spec: TaskSpec, capabilities: seq<string>) {
    spec.computeSpec.taskType in capabilities || "custom" in capabilities
  }

  function Ids(specs: seq<TaskSpec>): (r: seq<string>)
    ensures |r| == |specs| && forall i :: 0 <= i < |r| ==> r[i] == specs[i].taskId
  {
    seq(|specs|, i requires 0 <= i < |specs| => specs[i].taskId)
  }

  function Started(m: Machine, s: Shared, t: Thread): Machine {
    m.(shared := s, threads := m.threads + [t])
  }

  function Disturbed(m: Machine, task: string): Machine {
    m.(log := m.log.(disturbed := m.log.disturbed + {task}))
  }

  function Step(m: Machine, op: Op): Machine {
    match op
    case Submit(spec) => Started(m, Registered(m.shared, spec), Attaching(spec))
    case Assign(worker, capabilities) => Started(m, m.shared, Scanning(worker, capabilities, []))
    case Complete(id, result) =>
      if Has(m.shared.tasks, Parent(id))
      then Started(m.(log := m.log.(reports := m.log.reports + [id])), ResultStored(m.shared, id, result),
                   CheckingCompletion(Parent(id)))
      else m
    case Fail(id, retryable) =>
      if Has(m.shared.tasks, Parent(id))
      then Started(Disturbed(m, Parent(id)), FailureNoted(m.shared, id),
                   DecidingRetry(Parent(id), retryable))
      else m
    case Cancel(id) =>
      if Has(m.shared.tasks, id) then Disturbed(m, id).(shared := CancelledTask(m.shared, id)) else m
    case Timeout(worker) =>
      var specs := AllReclaimed(m.shared.tasks, worker);
      Started(m.(log := m.log.(reclaimed := m.log.reclaimed + Ids(specs))), WorkerForgotten(m.shared, worker),
              Enqueuing(specs))
    case Advance(i) => if i < |m.threads| then Advanced(m, i) else m
  }

  function Advanced(m: Machine, i: nat): Machine
    requires i < |m.threads|
  {
    match m.threads[i]
    case Done => m
    case Attaching(spec) => Moved(m, i, Attached(m.shared, spec), Enqueuing(Shard.ShardTask(spec)))
    case Enqueuing(rest) =>
      if rest == [] then Moved(m, i, m.shared, Done)
      else Issued(Moved(m, i, Enqueued(m.shared, rest[0]), Enqueuing(rest[1..])), rest[0].taskId)
    case Scanning(worker, capabilities, skipped) => Scanned(m, i)
    case PuttingBack(rest) =>
      if rest == [] then Moved(m, i, m.shared, Done)
      else Moved(m, i, Enqueued(m.shared, rest[0]), PuttingBack(rest[1..]))
    case Holding(worker, spec) =>
      var r := Moved(m, i, AssignmentRecorded(m.shared, spec.taskId, worker), Done);
      r.(log := r.log.(handed := r.log.handed + [spec.taskId]))
    case CheckingCompletion(parent) => Moved(m, i, CompletionChecked(m.shared, parent), Done)
    case DecidingRetry(parent, retryable) =>
      var r := Moved(m, i, RetryDecided(m.shared, parent, retryable), Done);
      if Retries(m.shared, parent, retryable) then Issued(r, Get(m.shared.tasks, parent).value.spec.taskId) else r
  }

  function Moved(m: Machine, i: nat, s: Shared, t: Thread): Machine
    requires i < |m.threads|
  {
    m.(shared := s, threads := m.threads[i := t])
  }

  function Issued(m: Machine, id: string): Machine {
    m.(log := m.log.(issued := m.log.issued + [id]))
  }

  /** One step of the scan: the head of the queue is taken if the worker can run it and set
      aside otherwise; on an empty queue everything set aside is put back. */
  function Scanned(m: Machine, i: nat): Machine
    requires i < |m.threads| && m.threads[i].Scanning?
  {
    var t := m.threads[i];
    if m.shared.queue == [] then Moved(m, i, m.shared, PuttingBack(t.skipped))
    else
      var head, rest := m.shared.queue[0].spec, m.shared.(queue := m.shared.queue[1..]);
      if Capable(head, t.capabilities)
      then
        var r := Moved(m, i, rest, Holding(t.worker, head));
        r.(log := r.log.(dropped := r.log.dropped + Ids(t.skipped)))
      else Moved(m, i, rest, t.(skipped := t.skipped + [head]))
  }

  function Run(m: Machine, ops: seq<Op>): Machine
    decreases ops
  {
    if ops == [] then m else Run(Step(m, ops[0]), ops[1..])
  }

  lemma RunTwo(m: Machine, op: Op, op': Op)
    ensures Run(m, [op, op']) == Step(Step(m, op), op')
  {
    assert [op, op'][1..] == [op'] && [op'][1..] == [];
    assert Run(Step(m, op), [op']) == Run(Step(Step(m, op), op'), []);
  }

  // ---------------------------------------------------------------- what threads change

  /** The threads whose sections leave the tasks alone. */
  predicate QueueOnly(t: Thread) {
    t.Done? || t.Enqueuing? || t.Scanning? || t.PuttingBack?
  }

  lemma QueueOnlyTasks(m: Machine, i: nat)
    requires i < |m.threads| && QueueOnly(m.threads[i])
    ensures Advanced(m, i).shared.tasks == m.shared.tasks
  {
  }

  lemma AttachingTasks(m: Machine, i: nat)
    requires i < |m.threads| && m.threads[i].Attaching?
    ensures Advanced(m, i).shared == Attached(m.shared, m.threads[i].spec)
  {
  }

  /** No thread counts reports or disturbs a task on its own. */
  lemma AdvancedLog(m: Machine, i: nat)
    requires i < |m.threads|
    ensures Advanced(m, i).log.reports == m.log.reports && Advanced(m, i).log.disturbed == m.log.disturbed
  {
  }

  lemma RecordingTasks(m: Machine, i: nat)
    requires i < |m.threads|
    ensures m.threads[i].Holding? ==>
      Advanced(m, i).shared == AssignmentRecorded(m.shared, m.threads[i].spec.taskId, m.threads[i].worker)
    ensures m.threads[i].CheckingCompletion? ==>
      Advanced(m, i).shared == CompletionChecked(m.shared, m.threads[i].parent)
    ensures m.threads[i].DecidingRetry? ==>
      Advanced(m, i).shared == RetryDecided(m.shared, m.threads[i].parent, m.threads[i].retryable)
  {
  }

  predicate SameTask(s: Shared, s': Shared, id: string) {
    Has(s.tasks, id) && Has(s'.tasks, id) && Get(s.tasks, id).value.spec == Get(s'.tasks, id).value.spec
  }

  /** What only its submission sets is the same. */
  predicate SameSubmission(s: Shared, s': Shared, id: string) {
    && (Has(s.tasks, id) <==> Has(s'.tasks, id))
    && (Has(s.tasks, id) ==>
          var t, t' := Get(s.tasks, id).value, Get(s'.tasks, id).value;
          t'.spec == t.spec && t'.slices == t.slices && t'.nSlices == t.nSlices && t'.slicesById == t.slicesById)
  }

  lemma AssignmentSubmission(s: Shared, slice: string, worker: string, id: string)
    ensures SameSubmission(s, AssignmentRecorded(s, slice, worker), id)
  {
  }

  lemma CheckSubmission(s: Shared, parent: string, id: string)
    ensures SameSubmission(s, CompletionChecked(s, parent), id)
  {
  }

  lemma RetrySubmission(s: Shared, parent: string, retryable: bool, id: string)
    ensures SameSubmission(s, RetryDecided(s, parent, retryable), id)
  {
  }

  lemma AdvancedSubmission(m: Machine, i: nat, id: string)
    requires i < |m.threads| && !m.threads[i].Attaching?
    ensures SameSubmission(m.shared, Advanced(m, i).shared, id)
  {
    if QueueOnly(m.threads[i]) {
      QueueOnlyTasks(m, i);
    } else {
      RecordingTasks(m, i);
      match m.threads[i] {
        case Holding(worker, spec) => AssignmentSubmission(m.shared, spec.taskId, worker, id);
        case CheckingCompletion(parent) => CheckSubmission(m.shared, parent, id);
        case DecidingRetry(parent, retryable) => RetrySubmission(m.shared, parent, retryable, id);
      }
    }
  }

  lemma AttachingKeepsTasks(s: Shared, spec: TaskSpec, id: string)
    ensures Has(Attached(s, spec).tasks, id) <==> Has(s.tasks, id)
    ensures Has(s.tasks, id) ==> SameTask(s, Attached(s, spec), id)
  {
  }

  /** No thread adds, removes or renames tasks on its own. */
  lemma AdvancedKeeps(m: Machine, i: nat, id: string)
    requires i < |m.threads|
    ensures Has(Advanced(m, i).shared.tasks, id) <==> Has(m.shared.tasks, id)
    ensures Has(m.shared.tasks, id) ==> SameTask(m.shared, Advanced(m, i).shared, id)
  {
    if m.threads[i].Attaching? {
      AttachingTasks(m, i);
      AttachingKeepsTasks(m.shared, m.threads[i].spec, id);
    } else {
      AdvancedSubmission(m, i, id);
    }
  }
}
