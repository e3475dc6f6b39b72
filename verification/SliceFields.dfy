// What a slice says, field by field, against the task it was cut from.
module SliceFields {
  import opened Protocol
  import opened Seqs
  import opened Shard

  function SymbolsOf(slices: seq<TaskSpec>): (r: seq<seq<string>>)
    ensures |r| == |slices| && forall i :: 0 <= i < |r| ==> r[i] == slices[i].dataSpec.symbols
  {
    seq(|slices|, i requires 0 <= i < |slices| => slices[i].dataSpec.symbols)
  }

  /** Lists of one element each, laid end to end. */
  lemma {:induction false} Singletons<T>(xss: seq<seq<T>>, xs: seq<T>)
    requires |xss| == |xs| && forall i :: 0 <= i < |xs| ==> xss[i] == [xs[i]]
    ensures Flatten(xss) == xs
  {
    if xs != [] {
      Singletons(xss[1..], xs[1..]);
      assert xs == [xs[0]] + xs[1..];
    }
  }

  /** A symbol-wise split of two symbols or more: one symbol a slice, and all of them in order. */
  lemma SymbolsDealtOut(spec: TaskSpec)
    requires spec.dispatchSpec.splitStrategy == "symbol_wise" && |spec.dataSpec.symbols| >= 2
    ensures var slices := ShardTask(spec);
            && (forall i :: 0 <= i < |slices| ==> |slices[i].dataSpec.symbols| == 1)
            && Flatten(SymbolsOf(slices)) == spec.dataSpec.symbols
  {
    Singletons(SymbolsOf(ShardTask(spec)), spec.dataSpec.symbols);
  }

  /** The whole task, when its split strategy does not apply to it. */
  lemma PassedWhole(spec: TaskSpec)
    requires var cs := spec.computeSpec;
             match spec.dispatchSpec.splitStrategy
             case "symbol_wise" => |spec.dataSpec.symbols| <= 1
             case "param_wise" =>
               && (cs.taskType == "grid_search" ==> cs.paramGrid == [])
               && (cs.taskType == "batch_backtest" ==> cs.strategies == [])
               && cs.taskType != "monte_carlo"
             case _ => true
    ensures ShardTask(spec) == [spec]
  {
  }

  function Names(grid: seq<Axis>): (names: seq<string>)
    ensures |names| == |grid| && forall j :: 0 <= j < |grid| ==> names[j] == grid[j].name
  {
    seq(|grid|, j requires 0 <= j < |grid| => grid[j].name)
  }

  /** Everything but the parts that some split deals out is the task's own, and those parts are
      too unless this split deals them out. */
  ghost predicate Keeps(spec: TaskSpec, slice: TaskSpec) {
    var c, c', split := spec.computeSpec, slice.computeSpec, spec.dispatchSpec.splitStrategy;
    && slice.dispatchSpec == spec.dispatchSpec
    && slice.dataSpec == spec.dataSpec.(symbols := slice.dataSpec.symbols)
    && (split != "symbol_wise" ==> slice.dataSpec.symbols == spec.dataSpec.symbols)
    && (split != "param_wise" ==> c' == c)
    && match c.taskType
       case "grid_search" => c' == c.(paramGrid := c'.paramGrid) && Names(c'.paramGrid) == Names(c.paramGrid)
       case "batch_backtest" => c' == c.(strategies := c'.strategies, feeModels := c'.feeModels)
       case "monte_carlo" => c' == c.(nSimulations := c'.nSimulations, seed := c'.seed)
       case _ => c' == c
  }

  lemma {:induction false} SimulationsKeep(spec: TaskSpec, i: nat, workers: int, size: nat, k: nat)
    requires size >= 1 && k < |SimulationSlicesFrom(spec, i, workers, size)|
    requires spec.computeSpec.taskType == "monte_carlo" && spec.dispatchSpec.splitStrategy == "param_wise"
    ensures Keeps(spec, SimulationSlicesFrom(spec, i, workers, size)[k])
    decreases k
  {
    if k > 0 {
      SimulationsKeep(spec, i + 1, workers, size, k - 1);
    }
  }

  lemma GridKeeps(spec: TaskSpec, i: nat)
    requires i < |GridSlices(spec)|
    requires spec.computeSpec.taskType == "grid_search" && spec.dispatchSpec.splitStrategy == "param_wise"
    ensures Keeps(spec, GridSlices(spec)[i])
  {
    var grid, grid' := spec.computeSpec.paramGrid, GridSlices(spec)[i].computeSpec.paramGrid;
    assert Names(grid') == Names(grid);
  }

  lemma SlicesKeep(spec: TaskSpec, i: nat)
    requires i < |ShardTask(spec)|
    ensures Keeps(spec, ShardTask(spec)[i])
  {
    var cs := spec.computeSpec;
    if spec.dispatchSpec.splitStrategy == "param_wise" {
      if cs.taskType == "grid_search" && cs.paramGrid != [] {
        GridKeeps(spec, i);
      } else if cs.taskType == "monte_carlo" {
        SimulationsKeep(spec, 0, Workers(spec), Max(1, FloorDiv(cs.nSimulations, Workers(spec))), i);
      }
    }
  }
}
