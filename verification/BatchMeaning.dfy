// A sharded batch backtest (strategies x fee models) reports the rows of the
// whole batch.
module BatchMeaning {
  import opened Protocol
  import opened Seqs
  import opened Shard
  import opened SplitRuns
  import opened Merge

  /** The name a worker gives to an absent fee model. */
  function FeeName(fee: Option<string>): string {
    match fee case None => "default" case Some(f) => f
  }

  function Effective(p: (Strategy, Option<string>)): (Strategy, string) {
    (p.0, FeeName(p.1))
  }

  function WorkerFees(fees: seq<string>): (r: seq<string>)
    ensures r != []
  {
    if fees == [] then ["default"] else fees
  }

  /** The backtests a worker runs for a spec: every strategy with every fee model. */
  function Backtests(spec: TaskSpec): seq<(Strategy, string)> {
    Pairs(spec.computeSpec.strategies, WorkerFees(spec.computeSpec.feeModels))
  }

  // ---------------------------------------------------------------- pairs by index

  lemma DivMod(p: int, q: int, F: int)
    requires F >= 1 && 0 <= q < F
    ensures (p * F + q) / F == p && (p * F + q) % F == q
  {
    var n := p * F + q;
    assert n == (n / F) * F + n % F;
    SameMultiple(p - n / F, F, n % F - q);
  }

  lemma Scale(a: int, b: int, F: int)
    requires F >= 1
    ensures a <= b ==> a * F <= b * F
    ensures a < b ==> a * F + F <= b * F
  {
    ProductRises(a, b, F);
    if a < b {
      ProductRises(a + 1, b, F);
      assert (a + 1) * F == a * F + F;
    }
  }

  lemma ProductRises(a: int, b: int, F: int)
    requires F >= 0
    ensures a <= b ==> a * F <= b * F
  {
  }

  lemma SameMultiple(d: int, F: int, r: int)
    requires d * F == r && -F < r < F && F >= 1
    ensures d == 0
  {
    Scale(d, 0, F);
    Scale(0, d, F);
  }

  lemma IndexParts(n: int, F: int)
    requires n >= 0 && F >= 1
    ensures n == (n / F) * F + n % F && 0 <= n % F < F && n / F >= 0
  {
  }

  /** Row and column of entry n of a table with F columns. */
  function Row(n: nat, F: nat): nat
    requires F >= 1
  {
    if n < F then 0 else 1 + Row(n - F, F)
  }

  function Column(n: nat, F: nat): nat
    requires F >= 1
  {
    if n < F then n else Column(n - F, F)
  }

  lemma {:induction false} RowColumn(n: nat, F: nat)
    requires F >= 1
    ensures Row(n, F) == n / F && Column(n, F) == n % F
  {
    if n < F {
      DivMod(0, n, F);
    } else {
      RowColumn(n - F, F);
      IndexParts(n - F, F);
      var p, q := (n - F) / F, (n - F) % F;
      assert n == (p + 1) * F + q;
      DivMod(p + 1, q, F);
    }
  }

  lemma {:induction false} PairsAt<A, B>(xs: seq<A>, ys: seq<B>, p: nat, q: nat)
    requires p < |xs| && q < |ys|
    ensures Offset(p, |ys|) + q < |Pairs(xs, ys)|
    ensures Pairs(xs, ys)[Offset(p, |ys|) + q] == (xs[p], ys[q])
  {
    if p > 0 {
      PairsAt(xs[1..], ys, p - 1, q);
    }
  }

  lemma {:induction false} PairsEntry<A, B>(xs: seq<A>, ys: seq<B>, n: nat)
    requires n < |Pairs(xs, ys)|
    ensures ys != [] && Row(n, |ys|) < |xs| && Column(n, |ys|) < |ys|
    ensures Pairs(xs, ys)[n] == (xs[Row(n, |ys|)], ys[Column(n, |ys|)])
    decreases |xs|
  {
    if n >= |ys| {
      NoColumns(xs, ys);
      PairsEntry(xs[1..], ys, n - |ys|);
    }
  }

  lemma {:induction false} NoColumns<A, B>(xs: seq<A>, ys: seq<B>)
    ensures ys == [] ==> Pairs(xs, ys) == []
  {
    if xs != [] {
      NoColumns(xs[1..], ys);
    }
  }

  lemma {:induction false} PairsSize<A, B>(xs: seq<A>, ys: seq<B>)
    ensures |Pairs(xs, ys)| == |xs| * |ys|
  {
    if xs != [] {
      PairsSize(xs[1..], ys);
      assert |xs| * |ys| == |ys| + (|xs| - 1) * |ys|;
    }
  }

  lemma {:induction false} PairsMember<A, B>(xs: seq<A>, ys: seq<B>, p: (A, B))
    ensures p in Pairs(xs, ys) <==> p.0 in xs && p.1 in ys
  {
    if xs != [] {
      PairsMember(xs[1..], ys, p);
      var w := PairWith(xs[0], ys);
      if p.0 == xs[0] && p.1 in ys {
        var i :| 0 <= i < |ys| && ys[i] == p.1;
        assert w[i] == p;
      }
    }
  }

  // ---------------------------------------------------------------- lists without repetition

  lemma {:induction false} PairsNoRepeats<A, B>(xs: seq<A>, ys: seq<B>)
    requires NoRepeats(xs) && NoRepeats(ys)
    ensures NoRepeats(Pairs(xs, ys))
  {
    if xs != [] {
      PairsNoRepeats(xs[1..], ys);
      var w, rest := PairWith(xs[0], ys), Pairs(xs[1..], ys);
      forall j | 0 <= j < |rest|
        ensures rest[j].0 != xs[0]
      {
        PairsMember(xs[1..], ys, rest[j]);
        assert rest[j] in rest;
      }
    }
  }

  // ---------------------------------------------------------------- chunks of a batch

  /** The work of the batch and its chunks, with fee models as the workers name them. */
  function Chunked(spec: TaskSpec): (r: seq<seq<(Strategy, string)>>)
    ensures |r| == |BatchChunks(spec)|
    ensures forall i :: 0 <= i < |r| ==> r[i] == Map(BatchChunks(spec)[i], Effective)
  {
    MapEach(BatchChunks(spec), Effective)
  }

  function SliceBacktests(spec: TaskSpec): (r: seq<seq<(Strategy, string)>>)
    ensures |r| == |BatchSlices(spec)|
    ensures forall i :: 0 <= i < |r| ==> r[i] == Backtests(BatchSlices(spec)[i])
  {
    seq(|BatchSlices(spec)|, i requires 0 <= i < |BatchSlices(spec)| => Backtests(BatchSlices(spec)[i]))
  }

  function BatchSize(spec: TaskSpec): (c: nat)
    ensures c >= 1
  {
    ChunkSize(|BatchCombos(spec)|, Workers(spec))
  }

  lemma {:induction false} MapPairs(xs: seq<Strategy>, ys: seq<Option<string>>, names: seq<string>)
    requires |names| == |ys| && forall j :: 0 <= j < |ys| ==> names[j] == FeeName(ys[j])
    ensures Map(Pairs(xs, ys), Effective) == Pairs(xs, names)
  {
    if xs != [] {
      MapPairs(xs[1..], ys, names);
      assert Map(PairWith(xs[0], ys), Effective) == PairWith(xs[0], names);
      assert Map(Pairs(xs, ys), Effective) == Map(PairWith(xs[0], ys), Effective) + Map(Pairs(xs[1..], ys), Effective);
    }
  }

  lemma ChunkedCovers(spec: TaskSpec)
    ensures Flatten(Chunked(spec)) == Backtests(spec)
  {
    ChunksCover(BatchCombos(spec), BatchSize(spec));
    MapFlatten(BatchChunks(spec), Effective);
    MapPairs(spec.computeSpec.strategies, FeeChoices(spec.computeSpec.feeModels),
      WorkerFees(spec.computeSpec.feeModels));
  }

  /** What the fee list of a slice comes to at the worker: the fee names of its chunk. */
  lemma SliceFees(spec: TaskSpec, i: nat, fee: string)
    requires i < |BatchChunks(spec)|
    ensures fee in WorkerFees(BatchSlices(spec)[i].computeSpec.feeModels) <==>
      exists r :: 0 <= r < |Chunked(spec)[i]| && Chunked(spec)[i][r].1 == fee
  {
    var chunk := BatchChunks(spec)[i];
    ChunkSizes(BatchCombos(spec), BatchSize(spec), i);
    var fees := spec.computeSpec.feeModels;
    var own := Distinct(Present(Seconds(chunk)));
    forall r | 0 <= r < |chunk|
      ensures chunk[r].1 in FeeChoices(fees)
    {
      ChunkMember(BatchCombos(spec), BatchSize(spec), i, r);
      PairsMember(spec.computeSpec.strategies, FeeChoices(fees), chunk[r]);
    }
    if fees == [] {
      forall r | 0 <= r < |chunk|
        ensures Seconds(chunk)[r] == None
      {
        assert chunk[r].1 in FeeChoices(fees);
      }
      assert forall f :: f !in own;
      FirstIsMember(own);
      assert Chunked(spec)[i][0].1 == "default";
    } else {
      forall r | 0 <= r < |chunk|
        ensures Seconds(chunk)[r].Some? && Seconds(chunk)[r].value in own
      {
        assert chunk[r].1 in FeeChoices(fees);
        assert Seconds(chunk)[r] in Seconds(chunk);
      }
      assert own != [] by { assert Seconds(chunk)[0].value in own; }
      if fee in own {
        assert Some(fee) in Seconds(chunk);
        var r :| 0 <= r < |chunk| && Seconds(chunk)[r] == Some(fee);
        assert Chunked(spec)[i][r].1 == fee;
      }
      if r :| 0 <= r < |chunk| && Chunked(spec)[i][r].1 == fee {
        assert Seconds(chunk)[r] == Some(fee);
      }
    }
  }

  lemma FirstIsMember<T>(xs: seq<T>)
    ensures xs == [] || xs[0] in xs
  {
  }

  lemma SliceStrategies(spec: TaskSpec, i: nat, s: Strategy)
    requires i < |BatchChunks(spec)|
    ensures s in BatchSlices(spec)[i].computeSpec.strategies <==>
      exists r :: 0 <= r < |Chunked(spec)[i]| && Chunked(spec)[i][r].0 == s
  {
    var chunk := BatchChunks(spec)[i];
    if s in Firsts(chunk) {
      var r :| 0 <= r < |chunk| && Firsts(chunk)[r] == s;
      assert Chunked(spec)[i][r].0 == s;
    }
    if r :| 0 <= r < |chunk| && Chunked(spec)[i][r].0 == s {
      assert Firsts(chunk)[r] == s;
    }
  }

  /** A batch whose strategies and fee models are listed once each. */
  ghost predicate Plain(spec: TaskSpec) {
    NoRepeats(spec.computeSpec.strategies) && NoRepeats(spec.computeSpec.feeModels)
  }

  lemma WorkNoRepeats(spec: TaskSpec)
    requires Plain(spec)
    ensures NoRepeats(Backtests(spec))
  {
    PairsNoRepeats(spec.computeSpec.strategies, WorkerFees(spec.computeSpec.feeModels));
  }

  /** Chunk i as a stretch of the whole work. */
  lemma ChunkStretch(spec: TaskSpec, i: nat) returns (a: nat, b: nat)
    requires i < |BatchChunks(spec)|
    ensures a == Offset(i, BatchSize(spec)) && b == Min(a + BatchSize(spec), |Backtests(spec)|)
    ensures a < b <= |Backtests(spec)| && Chunked(spec)[i] == Backtests(spec)[a..b]
  {
    var combos, size := BatchCombos(spec), BatchSize(spec);
    ChunkAt(combos, size, i);
    MapPairs(spec.computeSpec.strategies, FeeChoices(spec.computeSpec.feeModels),
      WorkerFees(spec.computeSpec.feeModels));
    a := Offset(i, size);
    b := Min(a + size, |combos|);
    MapStretch(combos, Effective, a, b);
  }

  lemma MapStretch<C, R>(xs: seq<C>, f: C -> R, a: nat, b: nat)
    requires a <= b <= |xs|
    ensures Map(xs[a..b], f) == Map(xs, f)[a..b]
  {
  }

  /** The slice runs its chunk and nothing outside the batch; its size exceeds the chunk's
      exactly when some backtest of the slice is missing from the chunk. */
  lemma SliceExpands(spec: TaskSpec, i: nat)
    requires Plain(spec) && i < |BatchChunks(spec)|
    ensures var chunk, slice := Chunked(spec)[i], SliceBacktests(spec)[i];
            && (forall p :: p in chunk ==> p in slice)
            && (forall p :: p in slice ==> p in Backtests(spec))
            && |slice| >= |chunk|
            && (|slice| == |chunk| <==> forall p :: p in slice ==> p in chunk)
            && (|slice| == |chunk| ==> multiset(slice) == multiset(chunk))
  {
    var chunk, slice := Chunked(spec)[i], SliceBacktests(spec)[i];
    var own := BatchSlices(spec)[i].computeSpec;
    SliceWithin(spec, i);
    WorkNoRepeats(spec);
    var a, b := ChunkStretch(spec, i);
    assert NoRepeats(chunk);
    PairsNoRepeats(own.strategies, WorkerFees(own.feeModels));
    SubsetSizes(chunk, slice);
  }

  /** What a slice runs: any strategy of its chunk with any fee model of its chunk. */
  lemma SliceMember(spec: TaskSpec, i: nat, p: (Strategy, string))
    requires i < |BatchChunks(spec)|
    ensures p in SliceBacktests(spec)[i] <==>
      && (exists r :: 0 <= r < |Chunked(spec)[i]| && Chunked(spec)[i][r].0 == p.0)
      && (exists r :: 0 <= r < |Chunked(spec)[i]| && Chunked(spec)[i][r].1 == p.1)
  {
    var own := BatchSlices(spec)[i].computeSpec;
    PairsMember(own.strategies, WorkerFees(own.feeModels), p);
    SliceStrategies(spec, i, p.0);
    SliceFees(spec, i, p.1);
  }

  lemma ChunkInWork(spec: TaskSpec, i: nat, r: nat)
    requires i < |BatchChunks(spec)| && r < |Chunked(spec)[i]|
    ensures Chunked(spec)[i][r].0 in spec.computeSpec.strategies
    ensures Chunked(spec)[i][r].1 in WorkerFees(spec.computeSpec.feeModels)
  {
    var a, b := ChunkStretch(spec, i);
    assert Chunked(spec)[i][r] == Backtests(spec)[a + r];
    PairsMember(spec.computeSpec.strategies, WorkerFees(spec.computeSpec.feeModels), Backtests(spec)[a + r]);
  }

  lemma SliceWithin(spec: TaskSpec, i: nat)
    requires i < |BatchChunks(spec)|
    ensures var chunk, slice := Chunked(spec)[i], SliceBacktests(spec)[i];
            && (forall p :: p in chunk ==> p in slice)
            && (forall p :: p in slice ==> p in Backtests(spec))
  {
    var chunk, slice := Chunked(spec)[i], SliceBacktests(spec)[i];
    forall p | p in chunk
      ensures p in slice
    {
      var r :| 0 <= r < |chunk| && chunk[r] == p;
      SliceMember(spec, i, p);
    }
    forall p | p in slice
      ensures p in Backtests(spec)
    {
      SliceMember(spec, i, p);
      var r :| 0 <= r < |chunk| && chunk[r].0 == p.0;
      var r' :| 0 <= r' < |chunk| && chunk[r'].1 == p.1;
      ChunkInWork(spec, i, r);
      ChunkInWork(spec, i, r');
      PairsMember(spec.computeSpec.strategies, WorkerFees(spec.computeSpec.feeModels), p);
    }
  }

  // ---------------------------------------------------------------- which chunks are rectangles

  /** The stretch [a, b) of a table with F columns lies in one row or consists of whole rows. */
  predicate Rectangle(a: nat, b: nat, F: nat)
    requires F >= 1 && b >= 1
  {
    Row(a, F) == Row(b - 1, F) || (Column(a, F) == 0 && Column(b, F) == 0)
  }

  lemma RectangleIs(a: nat, b: nat, F: nat)
    requires F >= 1 && b >= 1
    ensures Rectangle(a, b, F) <==> a / F == (b - 1) / F || (a % F == 0 && b % F == 0)
  {
    RowColumn(a, F);
    RowColumn(b - 1, F);
    RowColumn(b, F);
  }

  lemma DivMonotone(a: int, b: int, F: int)
    requires 0 <= a <= b && F >= 1
    ensures a / F <= b / F
  {
    IndexParts(a, F);
    IndexParts(b, F);
    Scale(b / F, a / F, F);
  }

  lemma RectangleClosed(a: nat, b: nat, F: nat, n: nat, m: nat)
    requires F >= 1 && a <= n < b && a <= m < b && Rectangle(a, b, F)
    ensures a <= (n / F) * F + m % F < b
  {
    RectangleIs(a, b, F);
    IndexParts(a, F);
    IndexParts(b, F);
    IndexParts(n, F);
    IndexParts(m, F);
    DivMonotone(a, n, F);
    DivMonotone(n, b - 1, F);
    DivMonotone(a, m, F);
    DivMonotone(m, b - 1, F);
    if a / F != (b - 1) / F {
      Scale(a / F, n / F, F);
      Scale(n / F, b / F, F);
      Scale(b / F, n / F, F);
    }
  }

  /** Outside a rectangle some row and some column of the stretch meet outside it. */
  lemma NotRectangle(a: nat, b: nat, F: nat) returns (n: nat, m: nat)
    requires F >= 1 && a < b && !Rectangle(a, b, F)
    ensures a <= n < b && a <= m < b && !(a <= (n / F) * F + m % F < b)
  {
    RectangleIs(a, b, F);
    IndexParts(a, F);
    IndexParts(b, F);
    IndexParts(b - 1, F);
    DivMonotone(a, b - 1, F);
    var p, q := a / F, (b - 1) / F;
    Scale(p, q, F);
    if a % F != 0 {
      n, m := a, p * F + F;
      assert m == (p + 1) * F + 0;
      DivMod(p + 1, 0, F);
    } else {
      n, m := b - 1, p * F + (F - 1);
      DivMod(p, F - 1, F);
      LastRow(b, F);
    }
  }

  lemma LastRow(b: nat, F: nat)
    requires F >= 1 && b >= 1 && b % F != 0
    ensures b <= ((b - 1) / F) * F + F - 1
  {
    IndexParts(b, F);
    assert b - 1 == (b / F) * F + (b % F - 1);
    DivMod(b / F, b % F - 1, F);
  }

  /** When the chunk size divides the row length or the reverse, or there is a single row, every
      chunk is a rectangle. */
  lemma ChunkRectangle(i: nat, c: nat, S: nat, F: nat)
    requires c >= 1 && F >= 1 && i * c < S * F
    requires S == 1 || F % c == 0 || c % F == 0
    ensures Rectangle(i * c, Min(i * c + c, S * F), F)
  {
    ChunkFits(i, c, S, F);
    RectangleIs(i * c, Min(i * c + c, S * F), F);
  }

  lemma ChunkFits(i: nat, c: nat, S: nat, F: nat)
    requires c >= 1 && F >= 1 && i * c < S * F
    requires S == 1 || F % c == 0 || c % F == 0
    ensures var a, b := i * c, Min(i * c + c, S * F);
            a / F == (b - 1) / F || (a % F == 0 && b % F == 0)
  {
    var a, L := i * c, S * F;
    var b := Min(a + c, L);
    if S == 1 {
      DivMod(0, a, F);
      DivMod(0, b - 1, F);
    } else if F % c == 0 {
      SameRow(i, c, F, b);
    } else {
      WholeRows(i, c, F);
      DivMod(S, 0, F);
    }
  }

  lemma WholeRows(i: nat, c: nat, F: nat)
    requires F >= 1 && c % F == 0
    ensures (i * c) % F == 0 && (i * c + c) % F == 0
  {
    IndexParts(c, F);
    var k := c / F;
    assert i * c == (i * k) * F + 0;
    DivMod(i * k, 0, F);
    assert i * c + c == (i * k + k) * F + 0;
    DivMod(i * k + k, 0, F);
  }

  lemma SameRow(i: nat, c: nat, F: nat, b: nat)
    requires c >= 1 && F >= 1 && F % c == 0 && i * c < b <= i * c + c
    ensures (i * c) / F == (b - 1) / F
  {
    var k := F / c;
    IndexParts(F, c);
    assert F == k * c;
    Scale(k, 0, c);
    IndexParts(i, k);
    var p, r := i / k, i % k;
    assert i * c == (p * k + r) * c == p * (k * c) + r * c;
    Scale(r, k, c);
    assert r * c >= 0;
    DivMod(p, r * c, F);
    DivMod(p, b - 1 - p * F, F);
  }

  /** Otherwise some chunk is none. */
  lemma SomeChunkNotRectangle(c: nat, S: nat, F: nat) returns (i: nat)
    requires c >= 1 && F >= 1 && S >= 2 && c <= S * F && F % c != 0 && c % F != 0
    ensures i * c < S * F && !Rectangle(i * c, Min(i * c + c, S * F), F)
  {
    i := SomeChunkSpills(c, S, F);
    RectangleIs(i * c, Min(i * c + c, S * F), F);
  }

  lemma SomeChunkSpills(c: nat, S: nat, F: nat) returns (i: nat)
    requires c >= 1 && F >= 1 && S >= 2 && c <= S * F && F % c != 0 && c % F != 0
    ensures i * c < S * F
    ensures var a, b := i * c, Min(i * c + c, S * F);
            a / F != (b - 1) / F && (a % F != 0 || b % F != 0)
  {
    Scale(2, S, F);
    IndexParts(F, c);
    if c < F {
      i := F / c;
      var a := i * c;
      assert F == a + F % c;
      Scale(i, 0, c);
      Scale(1, i, c);
      DivMod(0, a, F);
      var b := Min(a + c, S * F);
      DivMonotone(F, b - 1, F);
      assert F == 1 * F + 0;
      DivMod(1, 0, F);
    } else {
      i := 0;
      DivMonotone(F, c - 1, F) by { if c == F { DivMod(1, 0, F); } }
      assert F == 1 * F + 0;
      DivMod(1, 0, F);
      DivMod(0, 0, F);
    }
  }

  // ---------------------------------------------------------------- whole batches

  lemma InStretch<T>(work: seq<T>, a: nat, b: nat, n: nat)
    requires NoRepeats(work) && a <= b <= |work| && n < |work|
    ensures work[n] in work[a..b] <==> a <= n < b
  {
    if a <= n < b {
      assert work[a..b][n - a] == work[n];
    }
    if work[n] in work[a..b] {
      var r :| 0 <= r < |work[a..b]| && work[a..b][r] == work[n];
      assert work[a + r] == work[n];
    }
  }

  /** The row of one entry and the column of another meet within a stretch exactly when the
      index of their crossing does. */
  lemma CrossIndex<A, B>(xs: seq<A>, ys: seq<B>, a: nat, b: nat, n: nat, m: nat)
    requires NoRepeats(Pairs(xs, ys)) && a <= b <= |Pairs(xs, ys)| && ys != []
    requires n < |Pairs(xs, ys)| && m < |Pairs(xs, ys)|
    ensures (Pairs(xs, ys)[n].0, Pairs(xs, ys)[m].1) in Pairs(xs, ys)[a..b] <==>
      a <= Offset(Row(n, |ys|), |ys|) + Column(m, |ys|) < b
  {
    PairsEntry(xs, ys, n);
    PairsEntry(xs, ys, m);
    PairsAt(xs, ys, Row(n, |ys|), Column(m, |ys|));
    InStretch(Pairs(xs, ys), a, b, Offset(Row(n, |ys|), |ys|) + Column(m, |ys|));
  }

  lemma CrossingIs(n: nat, m: nat, F: nat)
    requires F >= 1
    ensures Offset(Row(n, F), F) + Column(m, F) == (n / F) * F + m % F
  {
    RowColumn(n, F);
    RowColumn(m, F);
    OffsetIs(n / F, F);
  }

  /** Every first component of the chunk occurs in it with every second one. */
  ghost predicate Crossed<A, B>(chunk: seq<(A, B)>) {
    forall r, r' :: 0 <= r < |chunk| && 0 <= r' < |chunk| ==> (chunk[r].0, chunk[r'].1) in chunk
  }

  /** Two entries of the stretch cross inside it. */
  predicate Crosses(a: nat, b: nat, F: nat, n: nat, m: nat)
    requires F >= 1
  {
    a <= Offset(Row(n, F), F) + Column(m, F) < b
  }

  lemma RectangleCrosses(a: nat, b: nat, F: nat, n: nat, m: nat)
    requires F >= 1 && a <= n < b && a <= m < b && Rectangle(a, b, F)
    ensures Crosses(a, b, F, n, m)
  {
    RectangleClosed(a, b, F, n, m);
    CrossingIs(n, m, F);
  }

  lemma SomeDoNotCross(a: nat, b: nat, F: nat) returns (n: nat, m: nat)
    requires F >= 1 && a < b && !Rectangle(a, b, F)
    ensures a <= n < b && a <= m < b && !Crosses(a, b, F, n, m)
  {
    n, m := NotRectangle(a, b, F);
    CrossingIs(n, m, F);
  }

  lemma CrossedIffRectangle<A, B>(xs: seq<A>, ys: seq<B>, a: nat, b: nat)
    requires NoRepeats(Pairs(xs, ys)) && a < b <= |Pairs(xs, ys)| && ys != []
    ensures Crossed(Pairs(xs, ys)[a..b]) <==> Rectangle(a, b, |ys|)
  {
    var chunk := Pairs(xs, ys)[a..b];
    if Rectangle(a, b, |ys|) {
      forall r, r' | 0 <= r < |chunk| && 0 <= r' < |chunk|
        ensures (chunk[r].0, chunk[r'].1) in chunk
      {
        RectangleCrosses(a, b, |ys|, a + r, a + r');
        CrossIndex(xs, ys, a, b, a + r, a + r');
      }
    } else {
      var n, m := SomeDoNotCross(a, b, |ys|);
      CrossIndex(xs, ys, a, b, n, m);
      assert chunk[n - a] == Pairs(xs, ys)[n] && chunk[m - a] == Pairs(xs, ys)[m];
    }
  }

  /** A slice runs exactly its chunk when the chunk is crossed, and more than it otherwise. */
  lemma SliceExactIff(spec: TaskSpec, i: nat)
    requires Plain(spec) && i < |BatchChunks(spec)|
    ensures |SliceBacktests(spec)[i]| == |Chunked(spec)[i]| <==> Crossed(Chunked(spec)[i])
  {
    SliceExpands(spec, i);
    var chunk, slice := Chunked(spec)[i], SliceBacktests(spec)[i];
    if Crossed(chunk) {
      forall p | p in slice
        ensures p in chunk
      {
        SliceMember(spec, i, p);
      }
    } else {
      var r, r' :| 0 <= r < |chunk| && 0 <= r' < |chunk| && (chunk[r].0, chunk[r'].1) !in chunk;
      SliceMember(spec, i, (chunk[r].0, chunk[r'].1));
    }
  }

  predicate RectangularChunk(i: nat, c: nat, L: nat, F: nat)
    requires F >= 1 && c >= 1 && L >= 1
  {
    Rectangle(Offset(i, c), Min(Offset(i, c) + c, L), F)
  }

  lemma CrossedChunkIff<A, B>(xs: seq<A>, ys: seq<B>, i: nat, c: nat, chunk: seq<(A, B)>)
    requires NoRepeats(Pairs(xs, ys)) && ys != [] && c >= 1 && Offset(i, c) < |Pairs(xs, ys)|
    requires chunk == Pairs(xs, ys)[Offset(i, c)..Min(Offset(i, c) + c, |Pairs(xs, ys)|)]
    ensures Crossed(chunk) <==> RectangularChunk(i, c, |Pairs(xs, ys)|, |ys|)
  {
    CrossedIffRectangle(xs, ys, Offset(i, c), Min(Offset(i, c) + c, |Pairs(xs, ys)|));
  }

  lemma ChunkCrossed(spec: TaskSpec, i: nat, c: nat)
    requires Plain(spec) && i < |BatchChunks(spec)| && c == BatchSize(spec)
    ensures Offset(i, c) < |Backtests(spec)|
    ensures Crossed(Chunked(spec)[i]) <==>
      RectangularChunk(i, c, |Backtests(spec)|, |WorkerFees(spec.computeSpec.feeModels)|)
  {
    var a, b := ChunkStretch(spec, i);
    WorkNoRepeats(spec);
    CrossedChunkIff(spec.computeSpec.strategies, WorkerFees(spec.computeSpec.feeModels), i, c, Chunked(spec)[i]);
  }

  /** ... which it is when it is a rectangle of the strategy-fee table. */
  lemma SliceExact(spec: TaskSpec, i: nat, c: nat)
    requires Plain(spec) && i < |BatchChunks(spec)| && c == BatchSize(spec)
    ensures |SliceBacktests(spec)[i]| == |Chunked(spec)[i]| <==>
      RectangularChunk(i, c, |Backtests(spec)|, |WorkerFees(spec.computeSpec.feeModels)|)
    ensures Offset(i, c) < |Backtests(spec)|
  {
    SliceExactIff(spec, i);
    ChunkCrossed(spec, i, c);
  }

  /** Chunks of size c of an S by F table are rectangles, all of them, exactly when c divides F
      or F divides c or there is a single row. */
  lemma AllRectanglesIff(c: nat, S: nat, F: nat, L: nat)
    requires c >= 1 && F >= 1 && S >= 1 && L == S * F && c <= L
    ensures (S == 1 || F % c == 0 || c % F == 0) <==>
      forall i: nat :: Offset(i, c) < L ==> RectangularChunk(i, c, L, F)
  {
    if S == 1 || F % c == 0 || c % F == 0 {
      forall i: nat | Offset(i, c) < L
        ensures RectangularChunk(i, c, L, F)
      {
        OffsetIs(i, c);
        ChunkRectangle(i, c, S, F);
      }
    } else {
      var i := SomeChunkNotRectangle(c, S, F);
      OffsetIs(i, c);
      assert Offset(i, c) < L && !RectangularChunk(i, c, L, F);
    }
  }

  /** The chunk size divides the number of fee models or the reverse, or there is one strategy. */
  predicate Aligned(spec: TaskSpec) {
    var S, F, c := |spec.computeSpec.strategies|, |WorkerFees(spec.computeSpec.feeModels)|, BatchSize(spec);
    S == 1 || F % c == 0 || c % F == 0
  }

  lemma BatchCount(spec: TaskSpec)
    requires spec.computeSpec.strategies != []
    ensures |BatchCombos(spec)| == |Backtests(spec)| ==
      |spec.computeSpec.strategies| * |WorkerFees(spec.computeSpec.feeModels)|
    ensures BatchSize(spec) <= |Backtests(spec)|
  {
    var S, F := |spec.computeSpec.strategies|, |WorkerFees(spec.computeSpec.feeModels)|;
    PairsSize(spec.computeSpec.strategies, FeeChoices(spec.computeSpec.feeModels));
    PairsSize(spec.computeSpec.strategies, WorkerFees(spec.computeSpec.feeModels));
    Scale(1, S, F);
    if BatchSize(spec) >= 2 {
      SizeWithin(|BatchCombos(spec)|, Workers(spec));
    }
  }

  lemma AlignedIff(spec: TaskSpec)
    requires Plain(spec) && spec.computeSpec.strategies != []
    ensures Aligned(spec) <==>
      forall i :: 0 <= i < |Chunked(spec)| ==> |SliceBacktests(spec)[i]| == |Chunked(spec)[i]|
  {
    var L, F, c := |Backtests(spec)|, |WorkerFees(spec.computeSpec.feeModels)|, BatchSize(spec);
    BatchCount(spec);
    AllRectanglesIff(c, |spec.computeSpec.strategies|, F, L);
    forall i | 0 <= i < |Chunked(spec)|
      ensures Offset(i, c) < L
      ensures |SliceBacktests(spec)[i]| == |Chunked(spec)[i]| <==> RectangularChunk(i, c, L, F)
    {
      SliceExact(spec, i, c);
    }
    forall i: nat | Offset(i, c) < L
      ensures i < |Chunked(spec)|
    {
      ChunkReaches(BatchCombos(spec), c, i);
    }
  }

  lemma {:induction false} ChunkReaches<T>(xs: seq<T>, size: nat, i: nat)
    requires size >= 1 && Offset(i, size) < |xs|
    ensures i < |Chunks(xs, size)|
    decreases |xs|
  {
    if |xs| > size && i > 0 {
      ChunkReaches(xs[size..], size, i - 1);
    }
  }

  /** The rows of a batch backtest, one per strategy and fee model. */
  function BatchRun<R>(spec: TaskSpec, row: ((Strategy, string)) -> R): seq<R> {
    Map(Backtests(spec), row)
  }

  lemma BatchFrames<R>(spec: TaskSpec, partials: seq<Payload<R>>)
    requires spec.computeSpec.strategies != [] && |partials| == |BatchSlices(spec)|
    requires forall i :: 0 <= i < |partials| ==> partials[i].Frame?
    ensures MergeResults("batch_backtest", partials) == Frame(Flatten(Rows(partials)))
  {
    BatchCount(spec);
    Scale(1, |spec.computeSpec.strategies|, |WorkerFees(spec.computeSpec.feeModels)|);
    ChunkReaches(BatchCombos(spec), BatchSize(spec), 0);
    MergeFrames("batch_backtest", partials);
  }

  lemma BatchCovering(spec: TaskSpec)
    ensures Covering(Backtests(spec), Chunked(spec), SliceBacktests(spec))
  {
    ChunkedCovers(spec);
    forall i | 0 <= i < |Chunked(spec)|
      ensures (forall p :: p in Chunked(spec)[i] ==> p in SliceBacktests(spec)[i])
      ensures (forall p :: p in SliceBacktests(spec)[i] ==> p in Backtests(spec))
    {
      SliceWithin(spec, i);
    }
  }

  /** Sharding a batch, running every slice and merging in any completion order reports the same
      set of rows as the unsharded batch. */
  lemma BatchRowSet<R(!new)>(spec: TaskSpec, row: ((Strategy, string)) -> R, partials: seq<Payload<R>>)
    requires spec.computeSpec.strategies != [] && |partials| == |BatchSlices(spec)|
    requires forall i :: 0 <= i < |partials| ==> partials[i].Frame?
    requires Arrives(Rows(partials), MapEach(SliceBacktests(spec), row))
    ensures MergeResults("batch_backtest", partials).Frame?
    ensures forall x :: x in MergeResults("batch_backtest", partials).rows <==> x in BatchRun(spec, row)
  {
    BatchFrames(spec, partials);
    BatchCovering(spec);
    SplitRowSet(Backtests(spec), Chunked(spec), SliceBacktests(spec), row, Rows(partials));
  }

  /** With strategies and fee models listed once each it reports the same rows with multiplicity
      exactly when the chunks are aligned with the fee models. */
  lemma BatchRowsIff<R(!new)>(spec: TaskSpec, row: ((Strategy, string)) -> R, partials: seq<Payload<R>>)
    requires Plain(spec) && spec.computeSpec.strategies != [] && |partials| == |BatchSlices(spec)|
    requires forall i :: 0 <= i < |partials| ==> partials[i].Frame?
    requires Arrives(Rows(partials), MapEach(SliceBacktests(spec), row))
    ensures MergeResults("batch_backtest", partials).Frame?
    ensures multiset(MergeResults("batch_backtest", partials).rows) == multiset(BatchRun(spec, row)) <==> Aligned(spec)
  {
    BatchFrames(spec, partials);
    BatchCovering(spec);
    AlignedIff(spec);
    forall i | 0 <= i < |Chunked(spec)|
      ensures |SliceBacktests(spec)[i]| >= |Chunked(spec)[i]|
      ensures |SliceBacktests(spec)[i]| == |Chunked(spec)[i]| ==>
        multiset(SliceBacktests(spec)[i]) == multiset(Chunked(spec)[i])
    {
      SliceExpands(spec, i);
    }
    SplitRows(Backtests(spec), Chunked(spec), SliceBacktests(spec), row, Rows(partials));
  }
}
