// The worker registry: registration, heartbeats, load counting, timeouts and
// fleet statistics.
module Workers {
  import opened Protocol

  datatype Worker = Worker(
    id: string,
    concurrency: int,
    status: string,
    lastHeartbeat: real,
    active: int,
    completed: int,
    failed: int)

  /** The registry's dictionary, in registration order. */
  type Registry = seq<Worker>

  /** A heartbeat message; counters it omits keep their values. */
  datatype Beat = Beat(active: int, completed: Option<int>, failed: Option<int>, status: string)

  datatype Op =
    | Register(id: string, concurrency: int, now: real)
    | Heartbeat(id: string, beat: Beat, now: real)
    | Unregister(id: string)
    | Increment(id: string)
    | Decrement(id: string, completed: bool, failed: bool)
    | CheckTimeouts(now: real, timeout: real)

  function Fresh(id: string, concurrency: int, now: real): Worker {
    Worker(id, concurrency, "online", now, 0, 0, 0)
  }

  function GetOr(o: Option<int>, default: int): int {
    match o case None => default case Some(v) => v
  }

  function OnHeartbeat(w: Worker, beat: Beat, now: real): Worker {
    var status :=
      if beat.active >= w.concurrency && beat.status == "online" then "busy"
      else if beat.active < w.concurrency && beat.status == "busy" then "online"
      else beat.status;
    Worker(w.id, w.concurrency, status, now, beat.active,
           GetOr(beat.completed, w.completed), GetOr(beat.failed, w.failed))
  }

  function OnIncrement(w: Worker): Worker {
    w.(active := w.active + 1, status := if w.active + 1 >= w.concurrency then "busy" else w.status)
  }

  function OnDecrement(w: Worker, completed: bool, failed: bool): Worker {
    var active := if w.active - 1 > 0 then w.active - 1 else 0;
    w.(active := active,
       completed := w.completed + (if completed then 1 else 0),
       failed := w.failed + (if failed then 1 else 0),
       status := if active < w.concurrency && w.status == "busy" then "online" else w.status)
  }

  predicate TimedOut(w: Worker, now: real, timeout: real) {
    (w.status == "online" || w.status == "busy") && now - w.lastHeartbeat > timeout
  }

  function OnTimeout(w: Worker, now: real, timeout: real): Worker {
    if TimedOut(w, now, timeout) then w.(status := "offline") else w
  }

  /** The ids of the workers that timed out, in registration order. */
  function Silent(ws: Registry, now: real, timeout: real): seq<string> {
    if ws == [] then []
    else
      var last := ws[|ws| - 1];
      Silent(ws[..|ws| - 1], now, timeout) + if TimedOut(last, now, timeout) then [last.id] else []
  }

  /** The first k workers checked. */
  function Expired(ws: Registry, k: nat, now: real, timeout: real): (r: Registry)
    ensures |r| == |ws|
    ensures forall i :: 0 <= i < |ws| ==> r[i] == if i < k then OnTimeout(ws[i], now, timeout) else ws[i]
  {
    seq(|ws|, i requires 0 <= i < |ws| => if i < k then OnTimeout(ws[i], now, timeout) else ws[i])
  }

  function Position(ws: Registry, id: string): (r: Option<nat>)
    ensures r.Some? ==> r.value < |ws| && ws[r.value].id == id && forall i :: 0 <= i < r.value ==> ws[i].id != id
    ensures r == None ==> forall i :: 0 <= i < |ws| ==> ws[i].id != id
  {
    if ws == [] then None
    else if ws[0].id == id then Some(0)
    else match Position(ws[1..], id) case None => None case Some(i) => Some(i + 1)
  }

  function Updated(ws: Registry, id: string, f: Worker -> Worker): Registry {
    match Position(ws, id) case None => ws case Some(i) => ws[i := f(ws[i])]
  }

  function Step(ws: Registry, op: Op): Registry {
    match op
    case Register(id, concurrency, now) =>
      (match Position(ws, id)
       case None => ws + [Fresh(id, concurrency, now)]
       case Some(i) => ws[i := Fresh(id, concurrency, now)])
    case Heartbeat(id, beat, now) => if id == "" then ws else Updated(ws, id, w => OnHeartbeat(w, beat, now))
    case Unregister(id) => Updated(ws, id, (w: Worker) => w.(status := "offline"))
    case Increment(id) => Updated(ws, id, OnIncrement)
    case Decrement(id, completed, failed) => Updated(ws, id, w => OnDecrement(w, completed, failed))
    case CheckTimeouts(now, timeout) =>
      seq(|ws|, i requires 0 <= i < |ws| => OnTimeout(ws[i], now, timeout))
  }

  function Run(ws: Registry, ops: seq<Op>): Registry
    decreases ops
  {
    if ops == [] then ws else Run(Step(ws, ops[0]), ops[1..])
  }

  // ---------------------------------------------------------------- the status machine

  /** Online means there is room, busy means there is none. */
  predicate StatusFits(w: Worker) {
    && (w.status == "online" ==> w.active < w.concurrency)
    && (w.status == "busy" ==> w.active >= w.concurrency)
  }

  predicate Consistent(ws: Registry) {
    forall i :: 0 <= i < |ws| ==> StatusFits(ws[i])
  }

  predicate Sized(ws: Registry) {
    forall i :: 0 <= i < |ws| ==> ws[i].concurrency >= 1
  }

  predicate RegistersRoom(op: Op) {
    op.Register? ==> op.concurrency >= 1
  }

  lemma StepConsistent(ws: Registry, op: Op)
    requires Consistent(ws) && Sized(ws)
    ensures RegistersRoom(op) ==> Consistent(Step(ws, op)) && Sized(Step(ws, op))
    ensures !RegistersRoom(op) ==> !Consistent(Step(ws, op))
  {
    if !RegistersRoom(op) {
      var w := Fresh(op.id, op.concurrency, op.now);
      match Position(ws, op.id) {
        case None => assert Step(ws, op)[|ws|] == w;
        case Some(i) => assert Step(ws, op)[i] == w;
      }
    }
  }

  /** Every state along the run fits its loads. */
  ghost predicate AlwaysConsistent(ws: Registry, ops: seq<Op>)
    decreases ops
  {
    Consistent(ws) && (ops == [] || AlwaysConsistent(Step(ws, ops[0]), ops[1..]))
  }

  /** Status and load agree in every state of a run, under arbitrary heartbeats, assignments,
      completions, timeouts and departures, exactly when every worker registers with a
      concurrency of at least one. */
  lemma {:induction false} AlwaysConsistentIff(ws: Registry, ops: seq<Op>)
    requires Consistent(ws) && Sized(ws)
    ensures AlwaysConsistent(ws, ops) <==> forall i :: 0 <= i < |ops| ==> RegistersRoom(ops[i])
    decreases ops
  {
    if ops != [] {
      StepConsistent(ws, ops[0]);
      assert forall i :: 0 < i < |ops| ==> ops[i] == ops[1..][i - 1];
      if RegistersRoom(ops[0]) {
        AlwaysConsistentIff(Step(ws, ops[0]), ops[1..]);
        if forall i :: 0 <= i < |ops[1..]| ==> RegistersRoom(ops[1..][i]) {
          assert forall i :: 0 <= i < |ops| ==> RegistersRoom(ops[i]);
        }
      }
    }
  }

  lemma {:induction false} RunConsistent(ws: Registry, ops: seq<Op>)
    requires Consistent(ws) && Sized(ws)
    requires forall i :: 0 <= i < |ops| ==> RegistersRoom(ops[i])
    ensures Consistent(Run(ws, ops)) && Sized(Run(ws, ops))
    decreases ops
  {
    if ops != [] {
      StepConsistent(ws, ops[0]);
      RunConsistent(Step(ws, ops[0]), ops[1..]);
    }
  }

  // ---------------------------------------------------------------- statistics

  function Room(w: Worker): nat {
    if (w.status == "online" || w.status == "busy") && w.concurrency - w.active > 0
    then w.concurrency - w.active else 0
  }

  function Available(ws: Registry): nat {
    if ws == [] then 0 else Available(ws[..|ws| - 1]) + Room(ws[|ws| - 1])
  }

  function CountStatus(ws: Registry, status: string): nat {
    if ws == [] then 0
    else CountStatus(ws[..|ws| - 1], status) + if ws[|ws| - 1].status == status then 1 else 0
  }

  function Active(ws: Registry): int {
    if ws == [] then 0 else Active(ws[..|ws| - 1]) + ws[|ws| - 1].active
  }

  function Capacity(ws: Registry): int {
    if ws == [] then 0 else Capacity(ws[..|ws| - 1]) + ws[|ws| - 1].concurrency
  }

  function Completed(ws: Registry): int {
    if ws == [] then 0 else Completed(ws[..|ws| - 1]) + ws[|ws| - 1].completed
  }

  function Failed(ws: Registry): int {
    if ws == [] then 0 else Failed(ws[..|ws| - 1]) + ws[|ws| - 1].failed
  }

  datatype Stats = Stats(
    total: nat,
    online: nat,
    busy: nat,
    offline: nat,
    concurrency: int,
    available: nat,
    active: int,
    completed: int,
    failed: int)

  function StatsOf(ws: Registry): Stats {
    Stats(|ws|, CountStatus(ws, "online"), CountStatus(ws, "busy"), CountStatus(ws, "offline"),
          Capacity(ws), Available(ws), Active(ws), Completed(ws), Failed(ws))
  }

  lemma {:induction false} RoomMeansOnline(ws: Registry)
    requires Consistent(ws)
    ensures Available(ws) == 0 <==> CountStatus(ws, "online") == 0
    ensures CountStatus(ws, "online") <= Available(ws)
  {
    if ws != [] {
      RoomMeansOnline(ws[..|ws| - 1]);
      assert StatusFits(ws[|ws| - 1]);
    }
  }

  predicate ScaleUp(queued: nat, stats: Stats) {
    queued > 20 && stats.available == 0
  }

  predicate ScaleDown(queued: nat, stats: Stats) {
    queued == 0 && stats.available > 0 && stats.active == 0
  }

  /** In every reachable fleet, scaling up is advised exactly when more than twenty jobs wait
      and no worker is online, scaling down exactly when none waits, some worker is online and no
      worker on record, present or not, has active tasks. */
  lemma ScaleAdvice(ops: seq<Op>, queued: nat)
    requires forall i :: 0 <= i < |ops| ==> RegistersRoom(ops[i])
    ensures var stats := StatsOf(Run([], ops));
            && (ScaleUp(queued, stats) <==> queued > 20 && stats.online == 0)
            && (ScaleDown(queued, stats) <==> queued == 0 && stats.online > 0 && stats.active == 0)
  {
    RunConsistent([], ops);
    RoomMeansOnline(Run([], ops));
  }

  /** A fleet without workers counts nothing, and a worker adds what it is by itself: its room while it
      is online or busy, and all its other figures whatever its status. */
  lemma OneMoreWorker(ws: Registry, w: Worker)
    ensures StatsOf([]) == Stats(0, 0, 0, 0, 0, 0, 0, 0, 0)
    ensures var old', new' := StatsOf(ws), StatsOf(ws + [w]);
            var reachable := w.status == "online" || w.status == "busy";
            && new'.total == old'.total + 1
            && new'.online + new'.busy == old'.online + old'.busy + (if reachable then 1 else 0)
            && new'.busy == old'.busy + (if w.status == "busy" then 1 else 0)
            && new'.offline == old'.offline + (if w.status == "offline" then 1 else 0)
            && new'.concurrency == old'.concurrency + w.concurrency && new'.active == old'.active + w.active
            && new'.available - old'.available ==
                 (if reachable && w.active < w.concurrency then w.concurrency - w.active else 0)
            && new'.completed == old'.completed + w.completed && new'.failed == old'.failed + w.failed
  {
    assert (ws + [w])[..|ws|] == ws;
  }

  // ---------------------------------------------------------------- the load of a worker

  /** The operation sets the load of the worker to a reported value. */
  predicate SetsLoad(op: Op, id: string) {
    (op.Register? && op.id == id) || (op.Heartbeat? && op.id == id)
  }

  /** One more for an assignment to the worker, one less for a report of it. */
  function Delta(op: Op, id: string): int {
    if op.Increment? && op.id == id then 1 else if op.Decrement? && op.id == id then -1 else 0
  }

  /** Assignments less reports. */
  function Net(ops: seq<Op>, id: string): int {
    if ops == [] then 0 else Delta(ops[0], id) + Net(ops[1..], id)
  }

  /** At no point did the worker report more than it was working on. */
  ghost predicate NeverOverdrawn(load: int, ops: seq<Op>, id: string) {
    forall k :: 0 <= k <= |ops| ==> load + Net(ops[..k], id) >= 0
  }

  /** A worker keeps its place. */
  lemma StepPlace(ws: Registry, op: Op, i: nat)
    requires i < |ws| && Position(ws, ws[i].id) == Some(i)
    ensures i < |Step(ws, op)| && Step(ws, op)[i].id == ws[i].id && Position(Step(ws, op), ws[i].id) == Some(i)
  {
    PositionIs(Step(ws, op), ws[i].id, i);
  }

  /** What an operation that does not set its load does to a worker. */
  function Effect(w: Worker, op: Op): Worker {
    match op
    case Unregister(id) => if id == w.id then w.(status := "offline") else w
    case Increment(id) => if id == w.id then OnIncrement(w) else w
    case Decrement(id, completed, failed) => if id == w.id then OnDecrement(w, completed, failed) else w
    case CheckTimeouts(now, timeout) => OnTimeout(w, now, timeout)
    case _ => w
  }

  lemma StepAt(ws: Registry, op: Op, i: nat)
    requires i < |ws| <= |Step(ws, op)| && Position(ws, ws[i].id) == Some(i) && !SetsLoad(op, ws[i].id)
    ensures Step(ws, op)[i] == Effect(ws[i], op)
  {
  }

  lemma StepLoad(ws: Registry, op: Op, i: nat)
    requires i < |ws| <= |Step(ws, op)| && Position(ws, ws[i].id) == Some(i)
    requires ws[i].active >= 0 && !SetsLoad(op, ws[i].id)
    ensures var load := ws[i].active + Delta(op, ws[i].id); Step(ws, op)[i].active == if load < 0 then 0 else load
  {
    StepAt(ws, op, i);
    EffectOnLoad(ws[i], op);
  }

  lemma EffectOnLoad(w: Worker, op: Op)
    requires w.active >= 0 && !SetsLoad(op, w.id)
    ensures Effect(w, op).active == if w.active + Delta(op, w.id) < 0 then 0 else w.active + Delta(op, w.id)
  {
  }

  lemma OverdrawnNext(load: int, ops: seq<Op>, id: string)
    requires ops != [] && load >= 0
    ensures NeverOverdrawn(load, ops, id) <==>
      load + Delta(ops[0], id) >= 0 && NeverOverdrawn(load + Delta(ops[0], id), ops[1..], id)
  {
    forall k | 0 < k <= |ops|
      ensures Net(ops[..k], id) == Delta(ops[0], id) + Net(ops[1..][..k - 1], id)
    {
      assert ops[..k][1..] == ops[1..][..k - 1];
    }
    if NeverOverdrawn(load, ops, id) {
      assert load + Net(ops[..1], id) >= 0;
      forall k | 0 <= k <= |ops[1..]|
        ensures load + Delta(ops[0], id) + Net(ops[1..][..k], id) >= 0
      {
        assert load + Net(ops[..k + 1], id) >= 0;
      }
    }
  }

  /** Without heartbeats and registrations in between, the load of a worker is never less than
      what it was plus assignments less reports, and it is exactly that if and only if the worker
      at no point reported more than it was working on: the floor at zero forgives the excess. */
  lemma {:induction false} LoadIsBalanceIff(ws: Registry, ops: seq<Op>, i: nat)
    requires i < |ws| && Position(ws, ws[i].id) == Some(i) && ws[i].active >= 0
    requires forall k :: 0 <= k < |ops| ==> !SetsLoad(ops[k], ws[i].id)
    ensures i < |Run(ws, ops)| && Run(ws, ops)[i].id == ws[i].id
    ensures Run(ws, ops)[i].active >= ws[i].active + Net(ops, ws[i].id)
    ensures Run(ws, ops)[i].active == ws[i].active + Net(ops, ws[i].id) <==>
      NeverOverdrawn(ws[i].active, ops, ws[i].id)
    decreases ops
  {
    var id, load := ws[i].id, ws[i].active;
    if ops == [] {
      assert forall k :: 0 <= k <= |ops| ==> ops[..k] == [];
    } else {
      StepPlace(ws, ops[0], i);
      StepLoad(ws, ops[0], i);
      LoadIsBalanceIff(Step(ws, ops[0]), ops[1..], i);
      OverdrawnNext(load, ops, id);
    }
  }

  // ---------------------------------------------------------------- the last sign of life, and the tallies

  predicate DistinctIds(ws: Registry) {
    forall i, j :: 0 <= i < j < |ws| ==> ws[i].id != ws[j].id
  }

  /** How many of the operations are reports of the worker that count as completed, or as failed. */
  function Reports(ops: seq<Op>, id: string, completed: bool): nat {
    if ops == [] then 0
    else
      Reports(ops[1..], id, completed) + if IsReport(ops[0], id, completed) then 1 else 0
  }

  predicate IsReport(op: Op, id: string, completed: bool) {
    op.Decrement? && op.id == id && if completed then op.completed else op.failed
  }

  lemma StepTallies(ws: Registry, op: Op, i: nat)
    requires i < |ws| <= |Step(ws, op)| && Position(ws, ws[i].id) == Some(i) && !SetsLoad(op, ws[i].id)
    ensures var w, w' := ws[i], Step(ws, op)[i];
            && w'.lastHeartbeat == w.lastHeartbeat && w'.concurrency == w.concurrency
            && w'.completed == w.completed + (if IsReport(op, w.id, true) then 1 else 0)
            && w'.failed == w.failed + (if IsReport(op, w.id, false) then 1 else 0)
  {
    StepAt(ws, op, i);
    EffectOnTallies(ws[i], op);
  }

  lemma EffectOnTallies(w: Worker, op: Op)
    requires !SetsLoad(op, w.id)
    ensures var w' := Effect(w, op);
            && w'.lastHeartbeat == w.lastHeartbeat && w'.concurrency == w.concurrency
            && w'.completed == w.completed + (if IsReport(op, w.id, true) then 1 else 0)
            && w'.failed == w.failed + (if IsReport(op, w.id, false) then 1 else 0)
  {
  }

  lemma {:induction false} RunTallies(ws: Registry, ops: seq<Op>, i: nat)
    requires i < |ws| && Position(ws, ws[i].id) == Some(i)
    requires forall k :: 0 <= k < |ops| ==> !SetsLoad(ops[k], ws[i].id)
    ensures i < |Run(ws, ops)| && Run(ws, ops)[i].id == ws[i].id && Position(Run(ws, ops), ws[i].id) == Some(i)
    ensures var w, w' := ws[i], Run(ws, ops)[i];
            && w'.lastHeartbeat == w.lastHeartbeat && w'.concurrency == w.concurrency
            && w'.completed == w.completed + Reports(ops, w.id, true)
            && w'.failed == w.failed + Reports(ops, w.id, false)
    decreases ops
  {
    if ops != [] {
      StepPlace(ws, ops[0], i);
      StepTallies(ws, ops[0], i);
      RunTallies(Step(ws, ops[0]), ops[1..], i);
    }
  }

  lemma StepDistinct(ws: Registry, op: Op)
    requires DistinctIds(ws)
    ensures DistinctIds(Step(ws, op))
  {
  }

  lemma {:induction false} RunDistinct(ws: Registry, ops: seq<Op>)
    requires DistinctIds(ws)
    ensures DistinctIds(Run(ws, ops))
    decreases ops
  {
    if ops != [] {
      StepDistinct(ws, ops[0]);
      RunDistinct(Step(ws, ops[0]), ops[1..]);
    }
  }

  /** The operation is a sign of life of the worker at that time: it registers, or it is known and
      sends a heartbeat. */
  predicate SignOfLife(ws: Registry, op: Op, id: string, time: real) {
    || (op.Register? && op.id == id && op.now == time)
    || (op.Heartbeat? && op.id == id != "" && op.now == time && Position(ws, id).Some?)
  }

  /** In every run, a check names a worker exactly when it is taken for online or busy and more than the
      timeout has passed since its last registration or heartbeat, whatever was assigned to it, reported
      or checked in between. */
  lemma NamedIff(before: seq<Op>, sign: Op, after: seq<Op>, id: string, time: real, now: real, timeout: real)
    requires SignOfLife(Run([], before), sign, id, time)
    requires forall k :: 0 <= k < |after| ==> !SetsLoad(after[k], id)
    ensures var ws := Run(Step(Run([], before), sign), after);
            var i := Position(ws, id);
            && i.Some?
            && (id in Silent(ws, now, timeout) <==>
                 (ws[i.value].status == "online" || ws[i.value].status == "busy") && now - time > timeout)
  {
    RunDistinct([], before);
    var ws1 := Step(Run([], before), sign);
    StepDistinct(Run([], before), sign);
    RunDistinct(ws1, after);
    Signed(Run([], before), sign, id, time);
    var i := Position(ws1, id).value;
    RunTallies(ws1, after, i);
    SilentIff(Run(ws1, after), now, timeout, i);
  }

  /** After a heartbeat the counts of a worker are those of the message, or its former ones where the
      message has none, and the reports since. */
  lemma CountsSinceHeartbeat(ws: Registry, id: string, beat: Beat, now: real, after: seq<Op>)
    requires id != "" && Position(ws, id).Some? && forall k :: 0 <= k < |after| ==> !SetsLoad(after[k], id)
    ensures var ws' := Run(Step(ws, Heartbeat(id, beat, now)), after);
            && Position(ws', id) == Position(ws, id)
            && var w, w' := ws[Position(ws, id).value], ws'[Position(ws, id).value];
               && w'.concurrency == w.concurrency
               && w'.completed == Reports(after, id, true) +
                    (match beat.completed case None => w.completed case Some(n) => n)
               && w'.failed == Reports(after, id, false) +
                    (match beat.failed case None => w.failed case Some(n) => n)
               && (beat.active >= 0 && NeverOverdrawn(beat.active, after, id) ==>
                    w'.active == beat.active + Net(after, id))
  {
    var i := Position(ws, id).value;
    var ws1 := Step(ws, Heartbeat(id, beat, now));
    PositionIs(ws1, id, i);
    RunTallies(ws1, after, i);
    if beat.active >= 0 {
      LoadIsBalanceIff(ws1, after, i);
    }
  }

  /** From a registration on they are those of the reports since alone, whatever came before. */
  lemma CountsSinceRegistration(ws: Registry, id: string, concurrency: int, now: real, after: seq<Op>)
    requires forall k :: 0 <= k < |after| ==> !SetsLoad(after[k], id)
    ensures var ws' := Run(Step(ws, Register(id, concurrency, now)), after);
            && Position(ws', id).Some?
            && var w' := ws'[Position(ws', id).value];
               && w'.concurrency == concurrency
               && w'.completed == Reports(after, id, true) && w'.failed == Reports(after, id, false)
               && (NeverOverdrawn(0, after, id) ==> w'.active == Net(after, id))
  {
    var ws1 := Step(ws, Register(id, concurrency, now));
    var i := if Position(ws, id).Some? then Position(ws, id).value else |ws|;
    PositionIs(ws1, id, i);
    RunTallies(ws1, after, i);
    LoadIsBalanceIff(ws1, after, i);
  }

  lemma Signed(ws: Registry, sign: Op, id: string, time: real)
    requires SignOfLife(ws, sign, id, time)
    ensures var i := Position(Step(ws, sign), id); i.Some? && Step(ws, sign)[i.value].lastHeartbeat == time
  {
    var i := if Position(ws, id).Some? then Position(ws, id).value else |ws|;
    PositionIs(Step(ws, sign), id, i);
  }

  lemma {:induction false} SilentIff(ws: Registry, now: real, timeout: real, i: nat)
    requires DistinctIds(ws) && i < |ws|
    ensures ws[i].id in Silent(ws, now, timeout) <==>
      (ws[i].status == "online" || ws[i].status == "busy") && now - ws[i].lastHeartbeat > timeout
  {
    var front := ws[..|ws| - 1];
    if i < |front| {
      SilentIff(front, now, timeout, i);
    } else {
      SilentKnown(front, now, timeout);
    }
  }

  lemma {:induction false} SilentKnown(ws: Registry, now: real, timeout: real)
    ensures forall id :: id in Silent(ws, now, timeout) ==> exists k :: 0 <= k < |ws| && ws[k].id == id
  {
    if ws != [] {
      var front := ws[..|ws| - 1];
      SilentKnown(front, now, timeout);
      forall id | id in Silent(ws, now, timeout)
        ensures exists k :: 0 <= k < |ws| && ws[k].id == id
      {
        if id in Silent(front, now, timeout) {
          var k :| 0 <= k < |front| && front[k].id == id;
          assert ws[k].id == id;
        } else {
          assert ws[|ws| - 1].id == id;
        }
      }
    }
  }

  // ---------------------------------------------------------------- the classes

  class WorkerRecord {
    const id: string
    const concurrency: int
    var status: string
    var lastHeartbeat: real
    var active: int
    var completed: int
    var failed: int

    constructor (id: string, concurrency: int, now: real)
      ensures this.id == id && View() == Fresh(id, concurrency, now)
    {
      this.id, this.concurrency := id, concurrency;
      status, lastHeartbeat := "online", now;
      active, completed, failed := 0, 0, 0;
    }

    function View(): (w: Worker)
      reads this
      ensures w.id == id
    {
      Worker(id, concurrency, status, lastHeartbeat, active, completed, failed)
    }

    /** Goes offline after a silence. */
    method Expire(now: real, timeout: real) returns (silent: bool)
      modifies this
      ensures View() == OnTimeout(old(View()), now, timeout) && silent == TimedOut(old(View()), now, timeout)
    {
      silent := (status == "online" || status == "busy") && now - lastHeartbeat > timeout;
      if silent {
        status := "offline";
      }
    }

    method Decrement(completed: bool, failed: bool)
      modifies this
      ensures View() == OnDecrement(old(View()), completed, failed)
    {
      active := if active - 1 > 0 then active - 1 else 0;
      if completed {
        this.completed := this.completed + 1;
      }
      if failed {
        this.failed := this.failed + 1;
      }
      if active < concurrency && status == "busy" {
        status := "online";
      }
    }
  }

  class WorkerRegistry {
    var workers: seq<WorkerRecord>

    /** Records have pairwise different ids, so they are pairwise different objects. */
    ghost predicate Valid()
      reads this
    {
      forall i, j :: 0 <= i < j < |workers| ==> workers[i].id != workers[j].id
    }

    ghost function View(): (ws: Registry)
      reads this, workers
      ensures |ws| == |workers| && forall i :: 0 <= i < |ws| ==> ws[i] == workers[i].View()
    {
      seq(|workers|, i requires 0 <= i < |workers| reads this, workers => workers[i].View())
    }

    constructor ()
      ensures Valid() && View() == [] && workers == []
    {
      workers := [];
    }

    /** Updating one record in place changes the view at its position only. */
    twostate lemma OneChanged(i: nat)
      requires old(Valid()) && workers == old(workers) && i < |workers|
      requires forall j :: 0 <= j < |workers| && j != i ==> unchanged(workers[j])
      ensures View() == old(View())[i := workers[i].View()]
    {
    }

    method Find(id: string) returns (r: Option<nat>)
      requires Valid()
      ensures r == Position(View(), id)
    {
      for i := 0 to |workers|
        invariant forall j :: 0 <= j < i ==> workers[j].id != id
      {
        if workers[i].id == id {
          PositionIs(View(), id, i);
          return Some(i);
        }
      }
      return None;
    }

    method Register(id: string, concurrency: int, now: real)
      requires Valid()
      modifies this
      ensures Valid() && View() == Step(old(View()), Op.Register(id, concurrency, now))
      ensures fresh(set w | w in workers && w !in old(workers))
    {
      var r := Find(id);
      var w := new WorkerRecord(id, concurrency, now);
      match r {
        case None =>
          workers := workers + [w];
          OneAdded(w);
        case Some(i) =>
          workers := workers[i := w];
          OneReplaced(i, w);
      }
    }

    twostate lemma OneReplaced(i: nat, new w: WorkerRecord)
      requires old(Valid()) && i < old(|workers|) && workers == old(workers)[i := w] && w.id == old(workers)[i].id
      requires forall j :: 0 <= j < |old(workers)| ==> unchanged(old(workers)[j])
      ensures Valid() && View() == old(View())[i := w.View()]
    {
    }

    twostate lemma OneAdded(new w: WorkerRecord)
      requires old(Valid()) && workers == old(workers) + [w]
      requires forall j :: 0 <= j < |old(workers)| ==> old(workers)[j].id != w.id && unchanged(old(workers)[j])
      ensures Valid() && View() == old(View()) + [w.View()]
    {
    }

    method UpdateHeartbeat(id: string, beat: Beat, now: real)
      requires Valid()
      modifies workers
      ensures Valid() && View() == Step(old(View()), Op.Heartbeat(id, beat, now))
    {
      if id == "" {
        return;
      }
      var r := Find(id);
      if r == None {
        return;
      }
      var w := workers[r.value];
      w.lastHeartbeat := now;
      w.active := beat.active;
      w.completed := GetOr(beat.completed, w.completed);
      w.failed := GetOr(beat.failed, w.failed);
      w.status := beat.status;
      if w.active >= w.concurrency && w.status == "online" {
        w.status := "busy";
      } else if w.active < w.concurrency && w.status == "busy" {
        w.status := "online";
      }
      assert View() == old(View())[r.value := OnHeartbeat(old(View())[r.value], beat, now)];
    }

    method Unregister(id: string)
      requires Valid()
      modifies workers
      ensures Valid() && View() == Step(old(View()), Op.Unregister(id))
    {
      var r := Find(id);
      if r.Some? {
        workers[r.value].status := "offline";
        assert View() == old(View())[r.value := old(View())[r.value].(status := "offline")];
      }
    }

    method IncrementActive(id: string)
      requires Valid()
      modifies workers
      ensures Valid() && View() == Step(old(View()), Op.Increment(id))
    {
      var r := Find(id);
      if r.Some? {
        var i, w := r.value, workers[r.value];
        assert forall j :: 0 <= j < |workers| && j != i ==> workers[j] != w;
        w.active := w.active + 1;
        if w.active >= w.concurrency {
          w.status := "busy";
        }
        assert w.View() == OnIncrement(old(w.View()));
        OneChanged(i);
      }
    }

    method DecrementActive(id: string, completed: bool, failed: bool)
      requires Valid()
      modifies workers
      ensures Valid() && View() == Step(old(View()), Op.Decrement(id, completed, failed))
    {
      var r := Find(id);
      if r.Some? {
        DecrementAt(r.value, completed, failed);
      }
    }

    method DecrementAt(i: nat, completed: bool, failed: bool)
      requires Valid() && i < |workers|
      modifies workers[i]
      ensures Valid() && View() == old(View())[i := OnDecrement(old(View())[i], completed, failed)]
    {
      var w := workers[i];
      assert forall j :: 0 <= j < |workers| && j != i ==> workers[j] != w;
      w.Decrement(completed, failed);
      OneChanged(i);
    }

    /** Marks silent workers offline and names exactly those, in registration order. */
    method CheckTimeouts(now: real, timeout: real) returns (ids: seq<string>)
      requires Valid()
      modifies workers
      ensures Valid() && View() == Step(old(View()), Op.CheckTimeouts(now, timeout))
      ensures ids == Silent(old(View()), now, timeout)
    {
      ids := [];
      ghost var before := View();
      for i := 0 to |workers|
        invariant Valid() && workers == old(workers)
        invariant View() == Expired(before, i, now, timeout) && ids == Silent(before[..i], now, timeout)
      {
        assert before[..i + 1][..i] == before[..i];
        var silent := ExpireAt(i, now, timeout);
        if silent {
          ids := ids + [workers[i].id];
        }
        assert Expired(before, i + 1, now, timeout) ==
          Expired(before, i, now, timeout)[i := OnTimeout(before[i], now, timeout)];
      }
      assert before[..|workers|] == before;
    }

    method ExpireAt(i: nat, now: real, timeout: real) returns (silent: bool)
      requires Valid() && i < |workers|
      modifies workers[i]
      ensures Valid() && View() == old(View())[i := OnTimeout(old(View())[i], now, timeout)]
      ensures silent == TimedOut(old(View())[i], now, timeout)
    {
      var w := workers[i];
      assert forall j :: 0 <= j < |workers| && j != i ==> workers[j] != w;
      silent := w.Expire(now, timeout);
      OneChanged(i);
    }

    method ComputeStats() returns (stats: Stats)
      requires Valid()
      ensures stats == StatsOf(View())
    {
      var online: nat, busy: nat, offline: nat, available: nat := 0, 0, 0, 0;
      var concurrency, active, completed, failed := 0, 0, 0, 0;
      for i := 0 to |workers|
        invariant Stats(i, online, busy, offline, concurrency, available, active, completed, failed) ==
          StatsOf(View()[..i])
      {
        var w := workers[i].View();
        assert View()[..i + 1][..i] == View()[..i];
        if w.status == "online" {
          online := online + 1;
        } else if w.status == "busy" {
          busy := busy + 1;
        } else if w.status == "offline" {
          offline := offline + 1;
        }
        if w.status == "online" || w.status == "busy" {
          available := available + (if w.concurrency - w.active > 0 then w.concurrency - w.active else 0);
        }
        concurrency := concurrency + w.concurrency;
        active := active + w.active;
        completed := completed + w.completed;
        failed := failed + w.failed;
      }
      assert View()[..|workers|] == View();
      return Stats(|workers|, online, busy, offline, concurrency, available, active, completed, failed);
    }
  }

  lemma {:induction false} PositionIs(ws: Registry, id: string, i: nat)
    requires i < |ws| && ws[i].id == id && forall j :: 0 <= j < i ==> ws[j].id != id
    ensures Position(ws, id) == Some(i)
  {
    if i > 0 {
      PositionIs(ws[1..], id, i - 1);
    }
  }
}
