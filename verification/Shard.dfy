// Splitting a task into slices: by parameter combination, by strategy and fee,
// by simulation count, by symbol.
module Shard {
  import opened Protocol
  import opened Seqs
  import opened SliceIds

  /** Division rounding towards minus infinity. */
  function FloorDiv(a: int, b: int): int
    requires b != 0
  {
    if b > 0 then a / b else (-a) / (-b)
  }

  function Max(a: int, b: int): int { if a >= b then a else b }

  function Min(a: int, b: int): int { if a <= b then a else b }

  /** An absent or zero worker count means one. */
  function Workers(spec: TaskSpec): (w: int)
    ensures w != 0
  {
    match spec.dispatchSpec.maxWorkers
    case None => 1
    case Some(w) => if w == 0 then 1 else w
  }

  function ChunkSize(total: nat, workers: int): (c: nat)
    requires workers != 0
    ensures c >= 1
  {
    Max(1, FloorDiv(total, workers))
  }

  /** A chunk size above one does not exceed the total. */
  lemma SizeWithin(total: nat, workers: int)
    requires workers != 0 && ChunkSize(total, workers) >= 2
    ensures ChunkSize(total, workers) <= total
  {
    if workers > 0 {
      DivWithin(total, workers);
    }
  }

  lemma DivWithin(total: int, workers: int)
    requires total >= 0 && workers >= 1
    ensures total / workers <= total
  {
  }

  /** Consecutive pieces of length size, the last one possibly shorter. */
  function Chunks<T>(xs: seq<T>, size: nat): (chunks: seq<seq<T>>)
    requires size >= 1
    decreases |xs|
  {
    if xs == [] then []
    else if |xs| <= size then [xs]
    else [xs[..size]] + Chunks(xs[size..], size)
  }

  lemma {:induction false} ChunkMember<T>(xs: seq<T>, size: nat, i: nat, r: nat)
    requires size >= 1 && i < |Chunks(xs, size)| && r < |Chunks(xs, size)[i]|
    ensures Chunks(xs, size)[i][r] in xs
    decreases |xs|
  {
    if |xs| > size {
      if i > 0 {
        ChunkMember(xs[size..], size, i - 1, r);
      } else {
        assert xs[..size][r] == xs[r];
      }
    }
  }

  lemma ChunkWidths<T>(rows: seq<seq<T>>, size: nat, width: nat)
    requires size >= 1 && forall i :: 0 <= i < |rows| ==> |rows[i]| == width
    ensures forall i, r :: 0 <= i < |Chunks(rows, size)| && 0 <= r < |Chunks(rows, size)[i]| ==>
      |Chunks(rows, size)[i][r]| == width
  {
    forall i, r | 0 <= i < |Chunks(rows, size)| && 0 <= r < |Chunks(rows, size)[i]|
      ensures |Chunks(rows, size)[i][r]| == width
    {
      ChunkMember(rows, size, i, r);
    }
  }

  // ---------------------------------------------------------------- products

  function Prepend<T>(x: T, rows: seq<seq<T>>): (r: seq<seq<T>>)
    ensures |r| == |rows| && forall i :: 0 <= i < |r| ==> r[i] == [x] + rows[i]
  {
    seq(|rows|, i requires 0 <= i < |rows| => [x] + rows[i])
  }

  function Extend<T>(xs: seq<T>, rows: seq<seq<T>>): seq<seq<T>> {
    if xs == [] then [] else Prepend(xs[0], rows) + Extend(xs[1..], rows)
  }

  /** All ways to pick one value from each list, the last list varying fastest. */
  function Product<T>(lists: seq<seq<T>>): seq<seq<T>> {
    if lists == [] then [[]] else Extend(lists[0], Product(lists[1..]))
  }

  function Values(grid: seq<Axis>): (v: seq<seq<string>>)
    ensures |v| == |grid| && forall j :: 0 <= j < |v| ==> v[j] == grid[j].values
  {
    seq(|grid|, j requires 0 <= j < |grid| => grid[j].values)
  }

  /** Column j of a list of combinations of length k. */
  function Columns(chunk: seq<seq<string>>, k: nat): (cols: seq<seq<string>>)
    requires forall i :: 0 <= i < |chunk| ==> |chunk[i]| == k
    ensures |cols| == k
    ensures forall j :: 0 <= j < k ==> |cols[j]| == |chunk| && forall i :: 0 <= i < |chunk| ==>
      cols[j][i] == chunk[i][j]
  {
    seq(k, j requires 0 <= j < k => seq(|chunk|, i requires 0 <= i < |chunk| => chunk[i][j]))
  }

  lemma {:induction false} ExtendMember<T>(xs: seq<T>, rows: seq<seq<T>>, row: seq<T>)
    ensures row in Extend(xs, rows) <==> row != [] && row[0] in xs && row[1..] in rows
  {
    if xs != [] {
      ExtendMember(xs[1..], rows, row);
      var p := Prepend(xs[0], rows);
      if row != [] && row[0] == xs[0] && row[1..] in rows {
        var i :| 0 <= i < |rows| && rows[i] == row[1..];
        assert p[i] == [xs[0]] + rows[i] == row;
        assert row in p;
      }
      if row in p {
        var i :| 0 <= i < |p| && p[i] == row;
        assert row[1..] == rows[i];
      }
    }
  }

  /** A row belongs to the product exactly when it picks one value from each list. */
  lemma {:induction false} ProductMember<T>(lists: seq<seq<T>>, row: seq<T>)
    ensures row in Product(lists) <==>
      |row| == |lists| && forall j :: 0 <= j < |lists| ==> row[j] in lists[j]
  {
    if lists != [] {
      ExtendMember(lists[0], Product(lists[1..]), row);
      if row != [] {
        ProductMember(lists[1..], row[1..]);
        if |row| == |lists| && row[0] in lists[0] && row[1..] in Product(lists[1..]) {
          forall j | 0 <= j < |lists|
            ensures row[j] in lists[j]
          {
            if j > 0 {
              assert row[1..][j - 1] in lists[1..][j - 1];
            }
          }
        }
        if |row| == |lists| && forall j :: 0 <= j < |lists| ==> row[j] in lists[j] {
          forall j | 0 <= j < |lists| - 1
            ensures row[1..][j] in lists[1..][j]
          {
            assert row[j + 1] in lists[j + 1];
          }
        }
      }
    }
  }

  lemma ProductWidth<T>(lists: seq<seq<T>>)
    ensures forall i :: 0 <= i < |Product(lists)| ==> |Product(lists)[i]| == |lists|
  {
    forall i | 0 <= i < |Product(lists)|
      ensures |Product(lists)[i]| == |lists|
    {
      assert Product(lists)[i] in Product(lists);
      ProductMember(lists, Product(lists)[i]);
    }
  }

  // ---------------------------------------------------------------- the slices

  function CloneSlice(spec: TaskSpec, i: nat): TaskSpec {
    spec.(taskId := SliceId(spec.taskId, i))
  }

  function Combos(grid: seq<Axis>): (combos: seq<seq<string>>)
    ensures forall i :: 0 <= i < |combos| ==> |combos[i]| == |grid|
  {
    ProductWidth(Values(grid));
    Product(Values(grid))
  }

  /** i * size. */
  function Offset(i: nat, size: nat): nat {
    if i == 0 then 0 else size + Offset(i - 1, size)
  }

  lemma {:induction false} OffsetIs(i: nat, size: nat)
    ensures Offset(i, size) == i * size
  {
    if i > 0 {
      OffsetIs(i - 1, size);
      assert i * size == size + (i - 1) * size;
    }
  }

  lemma StretchOfRest<T>(xs: seq<T>, skip: nat, start: nat, end: nat)
    requires start <= end && skip + end <= |xs|
    ensures xs[skip..][start..end] == xs[skip + start..skip + end]
  {
  }

  lemma LaterChunk<T>(xs: seq<T>, size: nat, i: nat)
    requires size >= 1 && |xs| > size && 0 < i < |Chunks(xs, size)|
    ensures i - 1 < |Chunks(xs[size..], size)| && Chunks(xs, size)[i] == Chunks(xs[size..], size)[i - 1]
  {
  }

  /** Chunk i is the stretch of the list that starts at i * size. */
  lemma {:induction false} ChunkAt<T>(xs: seq<T>, size: nat, i: nat)
    requires size >= 1 && i < |Chunks(xs, size)|
    ensures Offset(i, size) < |xs|
    ensures Chunks(xs, size)[i] == xs[Offset(i, size)..Min(Offset(i, size) + size, |xs|)]
    decreases |xs|
  {
    if |xs| <= size {
      assert xs[0..|xs|] == xs;
    } else if i > 0 {
      ChunkAt(xs[size..], size, i - 1);
      var start := Offset(i - 1, size);
      var end := Min(start + size, |xs| - size);
      StretchOfRest(xs, size, start, end);
      assert Offset(i, size) == size + start && Min(size + start + size, |xs|) == size + end;
      LaterChunk(xs, size, i);
    }
  }

  /** The chunks laid end to end are the list. */
  lemma {:induction false} ChunksCover<T>(xs: seq<T>, size: nat)
    requires size >= 1
    ensures Flatten(Chunks(xs, size)) == xs
    decreases |xs|
  {
    if xs != [] {
      if |xs| <= size {
        assert Flatten([xs]) == xs + Flatten<T>([]);
      } else {
        ChunksCover(xs[size..], size);
        assert xs == xs[..size] + xs[size..];
      }
    }
  }

  lemma {:induction false} ChunkSizes<T>(xs: seq<T>, size: nat, i: nat)
    requires size >= 1 && i < |Chunks(xs, size)|
    ensures 1 <= |Chunks(xs, size)[i]| <= size
    ensures i == 0 ==> |Chunks(xs, size)[i]| == Min(size, |xs|)
    decreases |xs|
  {
    if |xs| > size && i > 0 {
      ChunkSizes(xs[size..], size, i - 1);
    }
  }

  /** The sub-grid of a chunk: each parameter with its column of the chunk. */
  function SubGrid(grid: seq<Axis>, chunk: seq<seq<string>>): (g: seq<Axis>)
    requires forall i :: 0 <= i < |chunk| ==> |chunk[i]| == |grid|
    ensures |g| == |grid| && forall j :: 0 <= j < |g| ==> g[j] == Axis(grid[j].name, Columns(chunk, |grid|)[j])
  {
    seq(|grid|, j requires 0 <= j < |grid| => Axis(grid[j].name, Columns(chunk, |grid|)[j]))
  }

  function GridSlice(spec: TaskSpec, chunk: seq<seq<string>>, i: nat): TaskSpec
    requires forall r :: 0 <= r < |chunk| ==> |chunk[r]| == |spec.computeSpec.paramGrid|
  {
    var slice := CloneSlice(spec, i);
    slice.(computeSpec := slice.computeSpec.(paramGrid := SubGrid(spec.computeSpec.paramGrid, chunk)))
  }

  function GridChunks(spec: TaskSpec): (chunks: seq<seq<seq<string>>>)
    ensures forall i, r :: 0 <= i < |chunks| && 0 <= r < |chunks[i]| ==>
      |chunks[i][r]| == |spec.computeSpec.paramGrid|
  {
    var combos := Combos(spec.computeSpec.paramGrid);
    var size := ChunkSize(|combos|, Workers(spec));
    ChunkWidths(combos, size, |spec.computeSpec.paramGrid|);
    Chunks(combos, size)
  }

  function GridSlices(spec: TaskSpec): (slices: seq<TaskSpec>) {
    var chunks := GridChunks(spec);
    seq(|chunks|, i requires 0 <= i < |chunks| => GridSlice(spec, chunks[i], i))
  }

  /** Strategies crossed with fee models; no fee models at all stand for one None. */
  function BatchCombos(spec: TaskSpec): seq<(Strategy, Option<string>)> {
    Pairs(spec.computeSpec.strategies, FeeChoices(spec.computeSpec.feeModels))
  }

  function FeeChoices(fees: seq<string>): (r: seq<Option<string>>)
    ensures r != []
    ensures fees != [] ==> |r| == |fees| && forall i :: 0 <= i < |r| ==> r[i] == Some(fees[i])
  {
    if fees == [] then [None] else seq(|fees|, i requires 0 <= i < |fees| => Some(fees[i]))
  }

  function PairWith<A, B>(a: A, bs: seq<B>): (r: seq<(A, B)>)
    ensures |r| == |bs| && forall i :: 0 <= i < |r| ==> r[i] == (a, bs[i])
  {
    seq(|bs|, i requires 0 <= i < |bs| => (a, bs[i]))
  }

  function Pairs<A, B>(xs: seq<A>, ys: seq<B>): seq<(A, B)> {
    if xs == [] then [] else PairWith(xs[0], ys) + Pairs(xs[1..], ys)
  }

  function Firsts<A, B>(ps: seq<(A, B)>): (r: seq<A>)
    ensures |r| == |ps| && forall i :: 0 <= i < |r| ==> r[i] == ps[i].0
  {
    seq(|ps|, i requires 0 <= i < |ps| => ps[i].0)
  }

  function Seconds<A, B>(ps: seq<(A, B)>): (r: seq<B>)
    ensures |r| == |ps| && forall i :: 0 <= i < |r| ==> r[i] == ps[i].1
  {
    seq(|ps|, i requires 0 <= i < |ps| => ps[i].1)
  }

  /** First occurrences only. */
  function Distinct<T(==,!new)>(xs: seq<T>): (r: seq<T>)
    ensures forall x :: x in r <==> x in xs
    ensures forall i, j :: 0 <= i < j < |r| ==> r[i] != r[j]
  {
    if xs == [] then []
    else
      var last := xs[|xs| - 1];
      var rest := Distinct(xs[..|xs| - 1]);
      assert xs == xs[..|xs| - 1] + [last];
      if last in rest then rest else rest + [last]
  }

  /** The fee models that are present. */
  function Present(fees: seq<Option<string>>): (r: seq<string>)
    ensures forall f :: f in r <==> Some(f) in fees
  {
    if fees == [] then []
    else match fees[0] case None => Present(fees[1..]) case Some(f) => [f] + Present(fees[1..])
  }

  function BatchSlice(spec: TaskSpec, chunk: seq<(Strategy, Option<string>)>, i: nat): TaskSpec {
    var slice := CloneSlice(spec, i);
    slice.(computeSpec := slice.computeSpec.(
      strategies := Distinct(Firsts(chunk)),
      feeModels := Distinct(Present(Seconds(chunk)))))
  }

  function BatchChunks(spec: TaskSpec): seq<seq<(Strategy, Option<string>)>> {
    var combos := BatchCombos(spec);
    Chunks(combos, ChunkSize(|combos|, Workers(spec)))
  }

  function BatchSlices(spec: TaskSpec): seq<TaskSpec> {
    var chunks := BatchChunks(spec);
    seq(|chunks|, i requires 0 <= i < |chunks| => BatchSlice(spec, chunks[i], i))
  }

  function SimulationSlice(spec: TaskSpec, i: nat, start: int, end: int): TaskSpec {
    var slice := CloneSlice(spec, i);
    slice.(computeSpec := slice.computeSpec.(nSimulations := end - start, seed := spec.computeSpec.seed + start))
  }

  /** Slices for worker indices from i on, up to the first that would start past the end. */
  function SimulationSlicesFrom(spec: TaskSpec, i: nat, workers: int, size: nat): seq<TaskSpec>
    requires size >= 1
    decreases workers - i
  {
    var n := spec.computeSpec.nSimulations;
    if i >= workers || i * size >= n then []
    else
      [SimulationSlice(spec, i, i * size, Min(i * size + size, n))] + SimulationSlicesFrom(spec, i + 1, workers, size)
  }

  function SimulationSlices(spec: TaskSpec): seq<TaskSpec> {
    var workers := Workers(spec);
    SimulationSlicesFrom(spec, 0, workers, Max(1, FloorDiv(spec.computeSpec.nSimulations, workers)))
  }

  function SymbolSlice(spec: TaskSpec, i: nat): TaskSpec
    requires i < |spec.dataSpec.symbols|
  {
    CloneSlice(spec, i).(dataSpec := spec.dataSpec.(symbols := [spec.dataSpec.symbols[i]]))
  }

  function SymbolSlices(spec: TaskSpec): seq<TaskSpec> {
    var symbols := spec.dataSpec.symbols;
    if |symbols| <= 1 then [spec] else seq(|symbols|, i requires 0 <= i < |symbols| => SymbolSlice(spec, i))
  }

  function ParamSlices(spec: TaskSpec): seq<TaskSpec> {
    var cs := spec.computeSpec;
    if cs.taskType == "grid_search" && cs.paramGrid != [] then GridSlices(spec)
    else if cs.taskType == "batch_backtest" && cs.strategies != [] then BatchSlices(spec)
    else if cs.taskType == "monte_carlo" then SimulationSlices(spec)
    else [spec]
  }

  function ShardTask(spec: TaskSpec): seq<TaskSpec> {
    var strategy := spec.dispatchSpec.splitStrategy;
    if strategy == "param_wise" then ParamSlices(spec)
    else if strategy == "symbol_wise" then SymbolSlices(spec)
    else [spec]
  }

  // ---------------------------------------------------------------- the loops

  method ShardParamWise(spec: TaskSpec) returns (slices: seq<TaskSpec>)
    ensures slices == ParamSlices(spec)
  {
    var cs := spec.computeSpec;
    if cs.taskType == "grid_search" && cs.paramGrid != [] {
      slices := ShardGrid(spec);
    } else if cs.taskType == "batch_backtest" && cs.strategies != [] {
      slices := ShardBatch(spec);
    } else if cs.taskType == "monte_carlo" {
      slices := ShardSimulations(spec);
    } else {
      slices := [spec];
    }
  }

  method ShardGrid(spec: TaskSpec) returns (slices: seq<TaskSpec>)
    ensures slices == GridSlices(spec)
  {
    slices := SliceGrid(spec, GridChunks(spec));
  }

  /** One slice per chunk of parameter combinations. */
  method SliceGrid(spec: TaskSpec, chunks: seq<seq<seq<string>>>) returns (slices: seq<TaskSpec>)
    requires forall i, r :: 0 <= i < |chunks| && 0 <= r < |chunks[i]| ==>
      |chunks[i][r]| == |spec.computeSpec.paramGrid|
    ensures slices == seq(|chunks|, i requires 0 <= i < |chunks| => GridSlice(spec, chunks[i], i))
  {
    slices := [];
    for i := 0 to |chunks|
      invariant |slices| == i && forall k :: 0 <= k < i ==> slices[k] == GridSlice(spec, chunks[k], k)
    {
      slices := slices + [GridSlice(spec, chunks[i], i)];
    }
  }

  method ShardBatch(spec: TaskSpec) returns (slices: seq<TaskSpec>)
    ensures slices == BatchSlices(spec)
  {
    slices := SliceBatch(spec, BatchChunks(spec));
  }

  /** One slice per chunk of strategy and fee pairs. */
  method SliceBatch(spec: TaskSpec, chunks: seq<seq<(Strategy, Option<string>)>>) returns (slices: seq<TaskSpec>)
    ensures slices == seq(|chunks|, i requires 0 <= i < |chunks| => BatchSlice(spec, chunks[i], i))
  {
    slices := [];
    for i := 0 to |chunks|
      invariant |slices| == i && forall k :: 0 <= k < i ==> slices[k] == BatchSlice(spec, chunks[k], k)
    {
      slices := slices + [BatchSlice(spec, chunks[i], i)];
    }
  }

  method ShardSimulations(spec: TaskSpec) returns (slices: seq<TaskSpec>)
    ensures slices == SimulationSlices(spec)
  {
    var n := spec.computeSpec.nSimulations;
    var workers := Workers(spec);
    var size := Max(1, FloorDiv(n, workers));
    slices := [];
    var i := 0;
    while i < workers
      invariant i >= 0
      invariant slices + SimulationSlicesFrom(spec, i, workers, size) == SimulationSlices(spec)
    {
      SimulationsNext(spec, i, workers, size, slices);
      var start := i * size;
      if start >= n {
        break;
      }
      var end := Min(start + size, n);
      slices := slices + [SimulationSlice(spec, i, start, end)];
      i := i + 1;
    }
  }

  lemma SimulationsNext(spec: TaskSpec, i: nat, workers: int, size: nat, before: seq<TaskSpec>)
    requires size >= 1 && i < workers
    ensures var n, start := spec.computeSpec.nSimulations, i * size;
            before + SimulationSlicesFrom(spec, i, workers, size) ==
              if start >= n then before
              else
                before + [SimulationSlice(spec, i, start, Min(start + size, n))] +
                  SimulationSlicesFrom(spec, i + 1, workers, size)
  {
    var n, start := spec.computeSpec.nSimulations, i * size;
    if start >= n {
      assert before + [] == before;
    } else {
      var one := [SimulationSlice(spec, i, start, Min(start + size, n))];
      var rest := SimulationSlicesFrom(spec, i + 1, workers, size);
      assert before + (one + rest) == before + one + rest;
    }
  }

  method ShardSymbolWise(spec: TaskSpec) returns (slices: seq<TaskSpec>)
    ensures slices == SymbolSlices(spec)
  {
    var symbols := spec.dataSpec.symbols;
    if |symbols| <= 1 {
      return [spec];
    }
    slices := [];
    for i := 0 to |symbols|
      invariant slices == SymbolSlices(spec)[..i]
    {
      slices := slices + [SymbolSlice(spec, i)];
    }
  }

  // ---------------------------------------------------------------- slice ids

  /** Slices are numbered copies of the task, unless the task is passed on whole. */
  predicate Numbered(spec: TaskSpec, slices: seq<TaskSpec>) {
    forall i :: 0 <= i < |slices| ==> slices[i].taskId == SliceId(spec.taskId, i)
  }

  lemma {:induction false} SimulationIds(spec: TaskSpec, i: nat, workers: int, size: nat, k: nat)
    requires size >= 1 && k < |SimulationSlicesFrom(spec, i, workers, size)|
    ensures SimulationSlicesFrom(spec, i, workers, size)[k].taskId == SliceId(spec.taskId, i + k)
    decreases k
  {
    if k > 0 {
      SimulationIds(spec, i + 1, workers, size, k - 1);
      assert i + 1 + (k - 1) == i + k;
    }
  }

  lemma ShardNumbers(spec: TaskSpec)
    ensures ShardTask(spec) == [spec] || Numbered(spec, ShardTask(spec))
  {
    var slices := SimulationSlices(spec);
    forall k | 0 <= k < |slices|
      ensures slices[k].taskId == SliceId(spec.taskId, k)
    {
      SimulationIds(spec, 0, Workers(spec), Max(1, FloorDiv(spec.computeSpec.nSimulations, Workers(spec))), k);
    }
  }

  /** Slices ask for the same kind of computation with the same dispatch options. */
  predicate SameKind(spec: TaskSpec, slice: TaskSpec) {
    slice.computeSpec.taskType == spec.computeSpec.taskType && slice.dispatchSpec == spec.dispatchSpec
  }

  lemma {:induction false} SimulationKinds(spec: TaskSpec, i: nat, workers: int, size: nat, k: nat)
    requires size >= 1 && k < |SimulationSlicesFrom(spec, i, workers, size)|
    ensures SameKind(spec, SimulationSlicesFrom(spec, i, workers, size)[k])
    decreases k
  {
    if k > 0 {
      SimulationKinds(spec, i + 1, workers, size, k - 1);
    }
  }

  lemma ShardKinds(spec: TaskSpec, i: nat)
    requires i < |ShardTask(spec)|
    ensures SameKind(spec, ShardTask(spec)[i])
  {
    var slices := SimulationSlices(spec);
    if i < |slices| {
      SimulationKinds(spec, 0, Workers(spec), Max(1, FloorDiv(spec.computeSpec.nSimulations, Workers(spec))), i);
    }
  }

  /** Every split of every task gives either the task itself or slices numbered from zero. Slice
      ids are pairwise different, and each is routed back to its task, unless the task is passed
      on whole under an id that contains "-s". */
  lemma ShardIds(spec: TaskSpec, i: nat)
    requires i < |ShardTask(spec)|
    ensures forall j :: 0 <= j < |ShardTask(spec)| && j != i ==> ShardTask(spec)[j].taskId != ShardTask(spec)[i].taskId
    ensures Parent(ShardTask(spec)[i].taskId) == spec.taskId <==> ShardTask(spec) != [spec] || !HasMarker(spec.taskId)
  {
    var slices := ShardTask(spec);
    ShardNumbers(spec);
    if slices == [spec] {
      SelfRoutedIff(spec.taskId);
    } else {
      ParentOfSliceId(spec.taskId, i);
      forall j | 0 <= j < |slices| && j != i
        ensures slices[j].taskId != slices[i].taskId
      {
        SliceIdInjective(spec.taskId, i, spec.taskId, j);
      }
    }
  }
}
