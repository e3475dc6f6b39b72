// From submission to result: what a client gets back from a sharded grid
// search or batch backtest that the dispatcher reports as completed.
module EndToEnd {
  import opened Protocol
  import opened Dicts
  import opened DispatcherModel
  import opened Conservation
  import opened Provenance
  import opened Seqs
  import opened SliceIds
  import opened Completion
  import opened SplitRuns
  import opened Merge
  import BatchMeaning
  import GridMeaning
  import DispatcherRuns
  import Shard

  type Row = seq<real>

  /** The rows stored under a slice id. */
  function RowsAt(partials: Dict<Outcome>, id: string): seq<Row> {
    if Has(partials, id) && Get(partials, id).value.Frame? then Get(partials, id).value.rows else []
  }

  /** Every slice reported a table with the rows of its own run, in some order. */
  ghost predicate Faithful(partials: Dict<Outcome>, ids: seq<string>, runs: seq<seq<Row>>) {
    && |runs| == |ids|
    && forall i :: 0 <= i < |ids| && Has(partials, ids[i]) ==>
         Get(partials, ids[i]).value.Frame? && multiset(RowsAt(partials, ids[i])) == multiset(runs[i])
  }

  lemma RowsByKey(partials: Dict<Outcome>)
    requires DistinctKeys(partials) && forall i :: 0 <= i < |partials| ==> partials[i].value.Frame?
    ensures Rows(Values(partials)) == Map(Keys(partials), (id: string) => RowsAt(partials, id))
  {
    forall i | 0 <= i < |partials|
      ensures Rows(Values(partials))[i] == RowsAt(partials, Keys(partials)[i])
    {
      GetAt(partials, i);
    }
  }

  /** The stored results are those of the slices, in the order in which the slices reported. */
  lemma ResultsArrive(partials: Dict<Outcome>, ids: seq<string>, runs: seq<seq<Row>>)
    requires DistinctKeys(partials) && NoRepeats(ids) && Faithful(partials, ids, runs)
    requires forall id :: id in ids <==> Has(partials, id)
    ensures |partials| == |ids|
    ensures forall i :: 0 <= i < |partials| ==> partials[i].value.Frame?
    ensures Arrives(Rows(Values(partials)), runs)
  {
    forall id
      ensures id in Keys(partials) <==> id in ids
    {
      GetIsMember(partials, id);
    }
    SubsetSizes(Keys(partials), ids);
    assert |multiset(Keys(partials))| == |multiset(ids)|;
    forall i | 0 <= i < |partials|
      ensures partials[i].value.Frame?
    {
      GetAt(partials, i);
      assert Keys(partials)[i] in ids;
      var j :| 0 <= j < |ids| && ids[j] == partials[i].key;
    }
    var rowsAt := (id: string) => RowsAt(partials, id);
    RowsByKey(partials);
    MapMultiset(Keys(partials), ids, rowsAt);
    assert Results(Rows(Values(partials)), Map(ids, rowsAt), runs);
  }

  /** A task handled as the completion theorem requires. */
  ghost predicate Handled(ops: seq<Op>, task: string, spec: TaskSpec) {
    && AllFresh(START, ops) && AllHonest(START, ops) && Undisturbed(Run(START, ops), task)
    && Get(Run(START, ops).shared.tasks, task).value.spec == spec
    && Get(Run(START, ops).shared.tasks, task).value.status == COMPLETED
  }

  lemma PartialsOf(ops: seq<Op>, task: string, spec: TaskSpec) returns (partials: Dict<Outcome>, merged: Outcome)
    requires Handled(ops, task, spec)
    ensures partials == Get(Run(START, ops).shared.tasks, task).value.partials
    ensures merged == Get(Run(START, ops).shared.tasks, task).value.merged
    ensures DistinctKeys(partials) && NoRepeats(Ids(Shard.ShardTask(spec)))
    ensures forall id :: id in Ids(Shard.ShardTask(spec)) <==> Has(partials, id)
    ensures merged == MergeResults(spec.computeSpec.taskType, Values(partials))
  {
    var t := Get(Run(START, ops).shared.tasks, task).value;
    partials, merged := t.partials, t.merged;
    CompletionExact(ops, task);
    RunReachable(START, ops, task);
    SliceIdsDiffer(spec);
  }

  /** A grid search sharded by parameters whose slices each report the rows of their own run: once
      the dispatcher, under any interleaving, reports it completed, the result is a table with the
      rows of the unsharded search, each of them exactly as often if and only if the grid has one
      parameter or the chunks are single combinations. */
  lemma GridSearchEndToEnd(ops: seq<Op>, task: string, spec: TaskSpec, row: seq<string> -> Row)
    requires Handled(ops, task, spec)
    requires spec.computeSpec.taskType == "grid_search" && spec.computeSpec.paramGrid != []
    requires spec.dispatchSpec.splitStrategy == "param_wise"
    requires Faithful(Get(Run(START, ops).shared.tasks, task).value.partials, Ids(Shard.GridSlices(spec)),
                      MapEach(GridMeaning.SliceCombos(spec), row))
    ensures var merged := Get(Run(START, ops).shared.tasks, task).value.merged;
            && merged.Frame?
            && (forall x :: x in merged.rows <==> x in GridMeaning.GridRun(spec, row))
            && (multiset(merged.rows) == multiset(GridMeaning.GridRun(spec, row)) <==>
                |spec.computeSpec.paramGrid| == 1 || GridMeaning.GridSize(spec) == 1)
  {
    var partials, merged := PartialsOf(ops, task, spec);
    var ids := Ids(Shard.GridSlices(spec));
    assert Shard.ShardTask(spec) == Shard.GridSlices(spec);
    ResultsArrive(partials, ids, MapEach(GridMeaning.SliceCombos(spec), row));
    CompletionExact(ops, task);
    GridMeaning.GridSearchPreserved(spec, row, Values(partials));
  }

  /** The same for a batch backtest, whose rows arrive exactly as often when no strategy or fee
      model is listed twice if and only if the chunks are aligned with the fee models. */
  lemma BatchEndToEnd(ops: seq<Op>, task: string, spec: TaskSpec, row: ((Strategy, string)) -> Row)
    requires Handled(ops, task, spec)
    requires spec.computeSpec.taskType == "batch_backtest" && spec.computeSpec.strategies != []
    requires spec.dispatchSpec.splitStrategy == "param_wise"
    requires Faithful(Get(Run(START, ops).shared.tasks, task).value.partials, Ids(Shard.BatchSlices(spec)),
                      MapEach(BatchMeaning.SliceBacktests(spec), row))
    ensures var merged := Get(Run(START, ops).shared.tasks, task).value.merged;
            && merged.Frame?
            && (forall x :: x in merged.rows <==> x in BatchMeaning.BatchRun(spec, row))
            && (BatchMeaning.Plain(spec) ==>
                  (multiset(merged.rows) == multiset(BatchMeaning.BatchRun(spec, row)) <==> BatchMeaning.Aligned(spec)))
  {
    var partials, merged := PartialsOf(ops, task, spec);
    var ids := Ids(Shard.BatchSlices(spec));
    assert Shard.ShardTask(spec) == Shard.BatchSlices(spec);
    ResultsArrive(partials, ids, MapEach(BatchMeaning.SliceBacktests(spec), row));
    BatchMeaning.BatchRowSet(spec, row, Values(partials));
    if BatchMeaning.Plain(spec) {
      BatchMeaning.BatchRowsIff(spec, row, Values(partials));
    }
  }

  // ---------------------------------------------------------------- such runs exist

  /** Tables that the slices report. */
  function Tables(runs: seq<seq<Row>>): (results: seq<Outcome>)
    ensures |results| == |runs| && forall i :: 0 <= i < |runs| ==> results[i] == Frame(runs[i])
  {
    seq(|runs|, i requires 0 <= i < |runs| => Frame(runs[i]))
  }

  /** Any task with slices, sharded in any way, is carried through by one capable worker so that
      the theorems above apply to it, whatever rows its slices come up with. */
  lemma HandledAlone(spec: TaskSpec, worker: string, capabilities: seq<string>, runs: seq<seq<Row>>)
      returns (ops: seq<Op>)
    requires !HasMarker(spec.taskId) && Capable(spec, capabilities)
    requires |runs| == |Shard.ShardTask(spec)| && runs != []
    ensures Handled(ops, spec.taskId, spec)
    ensures Faithful(Get(Run(START, ops).shared.tasks, spec.taskId).value.partials, Ids(Shard.ShardTask(spec)), runs)
  {
    ops := DispatcherRuns.CarriedThrough(spec, worker, capabilities, Tables(runs));
    var ids := Ids(Shard.ShardTask(spec));
    var partials := DispatcherRuns.Reported(ids, Tables(runs), |runs|);
    SliceIdsDiffer(spec);
    forall i | 0 <= i < |ids|
      ensures Get(partials, ids[i]) == Some(Frame(runs[i]))
    {
      GetAt(partials, i);
      assert partials[i].key == ids[i];
    }
  }
}
