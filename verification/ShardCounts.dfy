// How many slices a split makes, and how much work they cover.
module ShardCounts {
  import opened Protocol
  import opened Shard

  lemma {:induction false} ChunkCount<T>(xs: seq<T>, size: nat)
    requires size >= 1
    ensures Offset(|Chunks(xs, size)|, size) >= |xs|
    ensures xs != [] ==> |Chunks(xs, size)| >= 1 && Offset(|Chunks(xs, size)| - 1, size) < |xs|
    decreases |xs|
  {
    if |xs| > size {
      ChunkCount(xs[size..], size);
    }
  }

  lemma Monotone(a: int, b: int, c: int)
    requires a <= b && c >= 0
    ensures a * c <= b * c && c * a <= c * b
  {
  }

  /** The quotient of positive numbers, by its defining bounds. */
  lemma DivBounds(total: int, workers: int)
    requires total >= 0 && workers >= 1
    ensures var q := total / workers; 0 <= q && workers * q <= total < workers * q + workers
    ensures total % workers == total - workers * (total / workers)
  {
  }

  /** For n chunks of size c = max(1, L / w) out of L items: n c >= L > (n - 1) c. */
  lemma CountBounds(total: int, workers: int, size: int, n: int)
    requires total >= 1 && workers >= 1 && size == Max(1, total / workers) && n >= 1
    requires n * size >= total > (n - 1) * size
    ensures Min(total, workers) <= n <= 2 * workers - 1
    ensures n <= workers <==> total <= workers || total % workers == 0
  {
    DivBounds(total, workers);
    if total < workers {
      QuotientZero(total, workers);
    } else {
      QuotientPositive(total, workers);
      AtLeastWorkers(total, workers, size, n);
      BelowTwice(total, workers, size, n);
      if n > workers {
        Monotone(workers, n - 1, size);
      } else {
        Monotone(n, workers, size);
      }
    }
  }

  lemma AtLeastWorkers(total: int, workers: int, size: int, n: int)
    requires workers >= 1 && size >= 1 && workers * size <= total <= n * size
    ensures n >= workers
  {
    if n < workers {
      Monotone(n, workers - 1, size);
    }
  }

  lemma BelowTwice(total: int, workers: int, size: int, n: int)
    requires workers >= 1 && size >= 1 && n >= 1
    requires (n - 1) * size < total < workers * size + workers
    ensures n <= 2 * workers - 1
  {
    if n >= 2 * workers {
      Monotone(2 * workers - 1, n - 1, size);
      TwiceTooMany(workers, size);
    }
  }

  lemma TwiceTooMany(workers: int, size: int)
    requires workers >= 1 && size >= 1
    ensures (2 * workers - 1) * size >= workers * size + workers - 1
  {
    Monotone(1, size, workers - 1);
    assert (2 * workers - 1) * size == workers * size + (workers - 1) * size;
  }

  /** Splitting a non-empty list of combinations for w workers makes between min(L, w) and
      2 w - 1 chunks; it stays within w exactly when L <= w or w divides L. */
  lemma ChunksPerWorker<T>(combos: seq<T>, workers: int)
    requires combos != [] && workers >= 1
    ensures var n := |Chunks(combos, ChunkSize(|combos|, workers))|;
            && Min(|combos|, workers) <= n <= 2 * workers - 1
            && (n <= workers <==> |combos| <= workers || |combos| % workers == 0)
  {
    var size := ChunkSize(|combos|, workers);
    ChunkCount(combos, size);
    var n := |Chunks(combos, size)|;
    OffsetIs(n, size);
    OffsetIs(n - 1, size);
    CountBounds(|combos|, workers, size, n);
  }

  /** The number of workers a split is made for: as asked, or one if nothing or zero is asked. */
  predicate IsWorkerCount(spec: TaskSpec, w: int) {
    match spec.dispatchSpec.maxWorkers
    case None => w == 1
    case Some(0) => w == 1
    case Some(asked) => w == asked
  }

  /** The combinations a task would run: of its grid, or of its strategies and fee models. */
  function CombosOf(spec: TaskSpec): nat {
    if spec.computeSpec.taskType == "grid_search" then |Combos(spec.computeSpec.paramGrid)| else |BatchCombos(spec)|
  }

  /** A grid search or batch backtest with at least one combination is cut into between min(L, w)
      and 2 w - 1 slices, within w exactly when L <= w or w divides L, and into single combinations
      when the number of workers is negative. */
  lemma SlicesPerWorker(spec: TaskSpec, w: int)
    requires spec.dispatchSpec.splitStrategy == "param_wise" && IsWorkerCount(spec, w) && CombosOf(spec) >= 1
    requires var cs := spec.computeSpec;
             || (cs.taskType == "grid_search" && cs.paramGrid != [])
             || (cs.taskType == "batch_backtest" && cs.strategies != [])
    ensures var combos, n := CombosOf(spec), |ShardTask(spec)|;
            if w < 0 then n == combos
            else Min(combos, w) <= n <= 2 * w - 1 && (n <= w <==> combos <= w || combos % w == 0)
  {
    if spec.computeSpec.taskType == "grid_search" {
      CountPerWorker(Combos(spec.computeSpec.paramGrid), w);
    } else {
      CountPerWorker(BatchCombos(spec), w);
    }
  }

  lemma CountPerWorker<T>(combos: seq<T>, w: int)
    requires combos != [] && w != 0
    ensures var n := |Chunks(combos, ChunkSize(|combos|, w))|;
            if w < 0 then n == |combos|
            else Min(|combos|, w) <= n <= 2 * w - 1 && (n <= w <==> |combos| <= w || |combos| % w == 0)
  {
    if w < 0 {
      NegativeQuotient(|combos|, w);
      ChunkCount(combos, 1);
      var n := |Chunks(combos, 1)|;
      OffsetIs(n, 1);
      OffsetIs(n - 1, 1);
    } else {
      ChunksPerWorker(combos, w);
    }
  }

  lemma NegativeQuotient(total: nat, w: int)
    requires w < 0
    ensures ChunkSize(total, w) == 1
  {
  }

  // ---------------------------------------------------------------- simulations

  function TotalSimulations(slices: seq<TaskSpec>): int {
    if slices == [] then 0 else slices[0].computeSpec.nSimulations + TotalSimulations(slices[1..])
  }

  /** Slices of equal size whose seeds follow one another from the i-th on. */
  ghost predicate Contiguous(spec: TaskSpec, slices: seq<TaskSpec>, i: nat, size: nat) {
    forall k :: 0 <= k < |slices| ==>
      slices[k].computeSpec.nSimulations == size &&
      slices[k].computeSpec.seed == spec.computeSpec.seed + Offset(i + k, size)
  }

  lemma ContiguousFront(spec: TaskSpec, first: TaskSpec, rest: seq<TaskSpec>, i: nat, size: nat)
    requires Contiguous(spec, rest, i + 1, size)
    requires first.computeSpec.nSimulations == size
    requires first.computeSpec.seed == spec.computeSpec.seed + Offset(i, size)
    ensures Contiguous(spec, [first] + rest, i, size)
  {
    var slices := [first] + rest;
    forall k | 0 <= k < |slices|
      ensures slices[k].computeSpec.nSimulations == size
      ensures slices[k].computeSpec.seed == spec.computeSpec.seed + Offset(i + k, size)
    {
      if k == 0 {
        assert slices[k] == first && i + k == i;
      } else {
        assert slices[k] == rest[k - 1] && i + 1 + (k - 1) == i + k;
      }
    }
  }

  /** Slices k.. cover [k size, min(count, workers) size) without gap or overlap. */
  lemma {:induction false} SimulationsFrom(spec: TaskSpec, i: nat, workers: int, size: nat, count: nat)
    requires size >= 1 && i <= count <= workers
    requires forall k :: 0 <= k < count ==> Offset(k, size) + size <= spec.computeSpec.nSimulations
    requires count < workers ==> Offset(count, size) >= spec.computeSpec.nSimulations
    ensures var slices := SimulationSlicesFrom(spec, i, workers, size);
            && |slices| == count - i
            && TotalSimulations(slices) == Offset(count, size) - Offset(i, size)
            && Contiguous(spec, slices, i, size)
    decreases count - i
  {
    OffsetIs(i, size);
    if i < count {
      SimulationsFrom(spec, i + 1, workers, size, count);
      var slices := SimulationSlicesFrom(spec, i, workers, size);
      var rest := SimulationSlicesFrom(spec, i + 1, workers, size);
      assert Offset(i, size) + size <= spec.computeSpec.nSimulations;
      assert slices[1..] == rest;
      ContiguousFront(spec, slices[0], rest, i, size);
      assert slices == [slices[0]] + rest;
    }
  }

  lemma {:induction false} OffsetMonotone(a: nat, b: nat, size: nat)
    requires a <= b
    ensures Offset(a, size) <= Offset(b, size)
  {
    if a < b {
      OffsetMonotone(a, b - 1, size);
    }
  }

  lemma FewerThanWorkers(spec: TaskSpec, n: nat, w: nat)
    requires n == spec.computeSpec.nSimulations && n < w
    ensures var slices := SimulationSlicesFrom(spec, 0, w, 1);
            && |slices| == n && TotalSimulations(slices) == n
            && forall k :: 0 <= k < n ==>
                 slices[k].computeSpec.nSimulations == 1 && slices[k].computeSpec.seed == spec.computeSpec.seed + k
  {
    forall k: nat | k <= n
      ensures Offset(k, 1) == k
    {
      OffsetIs(k, 1);
    }
    SimulationsFrom(spec, 0, w, 1, n);
  }

  lemma OnePerWorker(spec: TaskSpec, w: nat, size: nat)
    requires w >= 1 && size >= 1 && Offset(w, size) <= spec.computeSpec.nSimulations
    ensures var slices := SimulationSlicesFrom(spec, 0, w, size);
            && |slices| == w && TotalSimulations(slices) == Offset(w, size)
            && forall k :: 0 <= k < w ==>
                 slices[k].computeSpec.nSimulations == size &&
                 slices[k].computeSpec.seed == spec.computeSpec.seed + Offset(k, size)
  {
    forall k: nat | k < w
      ensures Offset(k, size) + size <= spec.computeSpec.nSimulations
    {
      OffsetMonotone(k + 1, w, size);
    }
    SimulationsFrom(spec, 0, w, size, w);
  }

  /** Simulations: min(n, w) slices of equal size with consecutive, disjoint seed ranges. They
      run n simulations when n < w and n - (n mod w) otherwise, so all of them exactly when
      n < w or w divides n. No simulations or a negative number of workers give no slices at all. */
  lemma SimulationCoverage(spec: TaskSpec, w: int)
    requires spec.dispatchSpec.splitStrategy == "param_wise" && spec.computeSpec.taskType == "monte_carlo"
    requires IsWorkerCount(spec, w)
    ensures w < 0 || spec.computeSpec.nSimulations <= 0 ==> ShardTask(spec) == []
    ensures w > 0 && spec.computeSpec.nSimulations >= 0 ==>
            var n, slices := spec.computeSpec.nSimulations, ShardTask(spec);
            var size := Max(1, n / w);
            && |slices| == Min(n, w)
            && (forall k :: 0 <= k < |slices| ==>
                 slices[k].computeSpec.nSimulations == size &&
                 slices[k].computeSpec.seed == spec.computeSpec.seed + Offset(k, size))
            && TotalSimulations(slices) == (if n < w then n else n - n % w)
            && (TotalSimulations(slices) == n <==> n < w || n % w == 0)
  {
    if w > 0 && spec.computeSpec.nSimulations >= 0 {
      PositiveCoverage(spec, w);
    }
  }

  lemma PositiveCoverage(spec: TaskSpec, w: nat)
    requires spec.computeSpec.nSimulations >= 0 && w == Workers(spec) >= 1
    ensures var n, slices := spec.computeSpec.nSimulations, SimulationSlices(spec);
            var size := Max(1, n / w);
            && |slices| == Min(n, w)
            && (forall k :: 0 <= k < |slices| ==>
                 slices[k].computeSpec.nSimulations == size &&
                 slices[k].computeSpec.seed == spec.computeSpec.seed + Offset(k, size))
            && TotalSimulations(slices) == (if n < w then n else n - n % w)
  {
    var n := spec.computeSpec.nSimulations;
    var size := Max(1, n / w);
    DivBounds(n, w);
    if n < w {
      QuotientZero(n, w);
      FewerThanWorkers(spec, n, w);
      forall k: nat | k < n
        ensures Offset(k, 1) == k
      {
        OffsetIs(k, 1);
      }
    } else {
      QuotientPositive(n, w);
      OffsetIs(w, size);
      OnePerWorker(spec, w, size);
    }
  }

  lemma QuotientZero(n: int, w: int)
    requires 0 <= n < w
    ensures n / w == 0
  {
  }

  lemma QuotientPositive(n: int, w: int)
    requires 1 <= w <= n
    ensures n / w >= 1
  {
    DivBounds(n, w);
    if n / w <= 0 {
      Monotone(n / w, 0, w);
    }
  }
}
