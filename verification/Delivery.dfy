// What a client gets for a completed task, told by what the workers reported.
module Delivery {
  import opened Protocol
  import opened Dicts
  import opened Seqs
  import opened SliceIds
  import opened DispatcherModel
  import opened Conservation
  import opened Provenance
  import opened Completion
  import EndToEnd
  import Merge
  import Shard

  // ---------------------------------------------------------------- the order of the results

  /** The reported ids of the task in order of their first reports. */
  function FirstReports(m: Machine, task: string): seq<string> {
    Shard.Distinct(Reports(m, task))
  }

  lemma KeysFront<V>(item: Item<V>, d: Dict<V>)
    ensures Keys([item] + d) == [item.key] + Keys(d)
  {
  }

  lemma {:induction false} PutKeys<V>(d: Dict<V>, key: string, value: V)
    ensures Keys(Put(d, key, value)) == if Has(d, key) then Keys(d) else Keys(d) + [key]
  {
    if d != [] {
      assert d == [d[0]] + d[1..];
      KeysFront(d[0], d[1..]);
      if d[0].key == key {
        KeysFront(Item(key, value), d[1..]);
      } else {
        PutKeys(d[1..], key, value);
        KeysFront(d[0], Put(d[1..], key, value));
        Assoc([d[0].key], Keys(d[1..]), [key]);
      }
    }
  }

  /** The results of the task are in order of their first reports. */
  ghost predicate InOrder(m: Machine, task: string) {
    Has(m.shared.tasks, task) ==> Keys(Get(m.shared.tasks, task).value.partials) == FirstReports(m, task)
  }

  lemma CompleteInOrder(m: Machine, id: string, result: Outcome, task: string)
    requires Logged(m, task) && InOrder(m, task)
    ensures InOrder(Step(m, Complete(id, result)), task)
  {
    if Has(m.shared.tasks, Parent(id)) {
      ForOne(m.log.reports, id, task);
      if Parent(id) == task {
        var t, reports := Get(m.shared.tasks, task).value, Reports(m, task);
        PutKeys(t.partials, id, result);
        assert (reports + [id])[..|reports|] == reports;
      }
    }
  }

  lemma StepInOrder(m: Machine, op: Op, task: string)
    requires Fresh(m, op) && Logged(m, task) && InOrder(m, task)
    ensures InOrder(Step(m, op), task)
  {
    match op
    case Complete(id, result) => CompleteInOrder(m, id, result, task);
    case Advance(i) =>
      if i < |m.threads| {
        AdvancedReports(m, i, task);
      }
    case _ =>
  }

  lemma {:induction false} RunInOrder(m: Machine, ops: seq<Op>, task: string)
    requires AllFresh(m, ops) && Logged(m, task) && InOrder(m, task)
    ensures InOrder(Run(m, ops), task)
    decreases ops
  {
    if ops != [] {
      StepLogged(m, ops[0], task);
      StepInOrder(m, ops[0], task);
      RunInOrder(Step(m, ops[0]), ops[1..], task);
    }
  }

  lemma {:induction false} DistinctKeeps(ids: seq<string>)
    requires NoRepeats(ids)
    ensures Shard.Distinct(ids) == ids
  {
    if ids != [] {
      DistinctKeeps(ids[..|ids| - 1]);
    }
  }

  // ---------------------------------------------------------------- the results themselves

  /** The result that the step reports under the id for a task on record. */
  function ReportOf(m: Machine, op: Op, id: string): Option<Outcome> {
    if op.Complete? && op.id == id && Has(m.shared.tasks, Parent(id)) then Some(op.result) else None
  }

  /** The last such result of the run. */
  function LastReport(m: Machine, ops: seq<Op>, id: string): Option<Outcome>
    decreases ops
  {
    if ops == [] then None
    else
      var later := LastReport(Step(m, ops[0]), ops[1..], id);
      if later.Some? then later else ReportOf(m, ops[0], id)
  }

  /** The result on record under the id. */
  function OnRecord(m: Machine, id: string): Option<Outcome> {
    match Get(m.shared.tasks, Parent(id)) case None => None case Some(t) => Get(t.partials, id)
  }

  lemma StepOnRecord(m: Machine, op: Op, id: string)
    requires Fresh(m, op)
    ensures OnRecord(Step(m, op), id) ==
      if ReportOf(m, op, id).Some? then ReportOf(m, op, id) else OnRecord(m, id)
  {
    if op.Advance? && op.thread < |m.threads| {
      AdvancedReports(m, op.thread, Parent(id));
    }
  }

  lemma {:induction false} RunOnRecord(m: Machine, ops: seq<Op>, id: string)
    requires AllFresh(m, ops)
    ensures OnRecord(Run(m, ops), id) ==
      if LastReport(m, ops, id).Some? then LastReport(m, ops, id) else OnRecord(m, id)
    decreases ops
  {
    if ops != [] {
      StepOnRecord(m, ops[0], id);
      RunOnRecord(Step(m, ops[0]), ops[1..], id);
    }
  }

  // ---------------------------------------------------------------- what the client gets

  /** The client of a completed task, neither failed nor cancelled and with no slice reported twice,
      gets for the results that the workers reported, in the order in which they reported them:
      a single one itself, the tables of a tabular task as one table, its results as a list if not
      all are tables, and the first one of any other task. Under every interleaving, without
      resubmission and with workers that report what they were handed. */
  lemma ReportsDelivered(ops: seq<Op>, task: string, spec: TaskSpec)
    requires EndToEnd.Handled(ops, task, spec)
    ensures var m := Run(START, ops);
            var t, reports := Get(m.shared.tasks, task).value, Reports(m, task);
            && |t.partials| == |reports| == |Shard.ShardTask(spec)|
            && (forall i :: 0 <= i < |reports| ==>
                 LastReport(START, ops, reports[i]) == Some(Values(t.partials)[i]))
            && Merge.Delivers(spec.computeSpec.taskType, Values(t.partials), t.merged)
  {
    var m := Run(START, ops);
    var partials, _ := EndToEnd.PartialsOf(ops, task, spec);
    var reports := Reports(m, task);
    RunReachable(START, ops, task);
    RunInOrder(START, ops, task);
    DistinctKeeps(reports);
    assert Keys(partials) == reports;
    ReportsAreSlices(m, task);
    Merge.MergeDelivers(spec.computeSpec.taskType, Values(partials));
    forall i | 0 <= i < |reports|
      ensures LastReport(START, ops, reports[i]) == Some(partials[i].value)
    {
      GetAt(partials, i);
      assert partials[i].key == reports[i];
      ForMember(m.log.reports, task, reports[i]);
      RunOnRecord(START, ops, reports[i]);
    }
  }
}
