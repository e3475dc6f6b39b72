// A sharded grid search reports the rows of the whole grid search.
module GridMeaning {
  import opened Protocol
  import opened Seqs
  import opened Shard
  import opened SplitRuns
  import opened Merge

  function Pow(m: nat, k: nat): nat {
    if k == 0 then 1 else m * Pow(m, k - 1)
  }

  lemma MulGrows(m: nat, p: nat)
    requires m >= 1 && p >= 1
    ensures m * p >= m
    ensures m >= 2 && p >= 2 ==> m * p > m
  {
  }

  lemma {:induction false} PowFacts(m: nat, k: nat)
    requires m >= 1
    ensures Pow(m, k) >= 1
    ensures k >= 1 ==> Pow(m, k) >= m && (Pow(m, k) == m <==> k == 1 || m == 1)
  {
    if k >= 1 {
      PowFacts(m, k - 1);
      MulGrows(m, Pow(m, k - 1));
      if k == 1 {
        assert Pow(m, 0) == 1;
      }
    }
  }

  lemma {:induction false} ExtendSize<T>(xs: seq<T>, rows: seq<seq<T>>)
    ensures |Extend(xs, rows)| == |xs| * |rows|
  {
    if xs != [] {
      ExtendSize(xs[1..], rows);
      assert |xs| * |rows| == |rows| + (|xs| - 1) * |rows|;
    }
  }

  /** k lists of m values have m^k combinations. */
  lemma {:induction false} ProductSize<T>(lists: seq<seq<T>>, m: nat)
    requires forall j :: 0 <= j < |lists| ==> |lists[j]| == m
    ensures |Product(lists)| == Pow(m, |lists|)
  {
    if lists != [] {
      ProductSize(lists[1..], m);
      ExtendSize(lists[0], Product(lists[1..]));
    }
  }

  lemma {:induction false} ExtendUnit<T>(xs: seq<T>)
    ensures |Extend(xs, [[]])| == |xs| && forall i :: 0 <= i < |xs| ==> Extend(xs, [[]])[i] == [xs[i]]
  {
    if xs != [] {
      ExtendUnit(xs[1..]);
      assert [xs[0]] + [] == [xs[0]];
    }
  }

  lemma {:induction false} ProductOfSingletons<T>(lists: seq<seq<T>>, row: seq<T>)
    requires |row| == |lists| && forall j :: 0 <= j < |lists| ==> lists[j] == [row[j]]
    ensures Product(lists) == [row]
  {
    if lists != [] {
      ProductOfSingletons(lists[1..], row[1..]);
      assert Prepend(row[0], [row[1..]]) == [[row[0]] + row[1..]];
      assert Extend(lists[0], [row[1..]]) == Prepend(row[0], [row[1..]]) + Extend([], [row[1..]]);
      assert [row[0]] + row[1..] == row;
    } else {
      assert row == [];
    }
  }

  /** Expanding a chunk's columns again: the chunk is part of it, nothing leaves the grid, and
      it has m^k rows, which are the chunk when that is no more. */
  lemma ChunkExpands(lists: seq<seq<string>>, chunk: seq<seq<string>>)
    requires lists != [] && chunk != []
    requires forall i :: 0 <= i < |chunk| ==> chunk[i] in Product(lists) && |chunk[i]| == |lists|
    ensures var p := Product(Columns(chunk, |lists|));
            && (forall c :: c in chunk ==> c in p)
            && (forall c :: c in p ==> c in Product(lists))
            && |p| == Pow(|chunk|, |lists|)
            && |p| >= |chunk|
            && (|p| == |chunk| <==> |lists| == 1 || |chunk| == 1)
            && (|p| == |chunk| ==> multiset(p) == multiset(chunk))
  {
    var k := |lists|;
    var cols := Columns(chunk, k);
    ChunkMembers(lists, chunk);
    ProductSize(cols, |chunk|);
    PowFacts(|chunk|, k);
    if k == 1 || |chunk| == 1 {
      ChunkIsProduct(chunk, k);
    }
  }

  lemma ChunkIsProduct(chunk: seq<seq<string>>, k: nat)
    requires forall i :: 0 <= i < |chunk| ==> |chunk[i]| == k
    requires |chunk| == 1 || k == 1
    ensures Product(Columns(chunk, k)) == chunk
  {
    var cols := Columns(chunk, k);
    if |chunk| == 1 {
      assert forall j :: 0 <= j < k ==> cols[j] == [chunk[0][j]];
      ProductOfSingletons(cols, chunk[0]);
    } else {
      assert cols == [cols[0]] && cols[1..] == [];
      ExtendUnit(cols[0]);
      var p := Extend(cols[0], [[]]);
      forall i | 0 <= i < |chunk|
        ensures p[i] == chunk[i]
      {
        assert chunk[i] == [chunk[i][0]];
      }
      assert p == chunk;
    }
  }

  lemma ChunkMembers(lists: seq<seq<string>>, chunk: seq<seq<string>>)
    requires forall i :: 0 <= i < |chunk| ==> chunk[i] in Product(lists) && |chunk[i]| == |lists|
    ensures var p := Product(Columns(chunk, |lists|));
            (forall c :: c in chunk ==> c in p) && (forall c :: c in p ==> c in Product(lists))
  {
    var cols := Columns(chunk, |lists|);
    forall c | c in chunk
      ensures c in Product(cols)
    {
      var i :| 0 <= i < |chunk| && chunk[i] == c;
      forall j | 0 <= j < |lists|
        ensures c[j] in cols[j]
      {
        assert cols[j][i] == c[j];
      }
      ProductMember(cols, c);
    }
    forall c | c in Product(cols)
      ensures c in Product(lists)
    {
      ProductMember(cols, c);
      forall j | 0 <= j < |lists|
        ensures c[j] in lists[j]
      {
        var i :| 0 <= i < |chunk| && cols[j][i] == c[j];
        ProductMember(lists, chunk[i]);
      }
      ProductMember(lists, c);
    }
  }

  // ---------------------------------------------------------------- whole grid searches

  /** The rows of a grid search, one per combination, before sorting by the metric. */
  function GridRun<R>(spec: TaskSpec, row: seq<string> -> R): seq<R> {
    Map(Combos(spec.computeSpec.paramGrid), row)
  }

  function SliceCombos(spec: TaskSpec): (r: seq<seq<seq<string>>>)
    ensures |r| == |GridSlices(spec)|
    ensures forall i :: 0 <= i < |r| ==> r[i] == Combos(GridSlices(spec)[i].computeSpec.paramGrid)
  {
    seq(|GridSlices(spec)|, i requires 0 <= i < |GridSlices(spec)| =>
      Combos(GridSlices(spec)[i].computeSpec.paramGrid))
  }

  function GridSize(spec: TaskSpec): nat {
    ChunkSize(|Combos(spec.computeSpec.paramGrid)|, Workers(spec))
  }

  lemma SliceIsColumns(spec: TaskSpec, i: nat)
    requires i < |GridSlices(spec)|
    ensures var k := |spec.computeSpec.paramGrid|;
            SliceCombos(spec)[i] == Product(Columns(GridChunks(spec)[i], k))
  {
    var grid := spec.computeSpec.paramGrid;
    var sub := SubGrid(grid, GridChunks(spec)[i]);
    assert Values(sub) == Columns(GridChunks(spec)[i], |grid|);
  }

  lemma GridChunkExpands(spec: TaskSpec, i: nat)
    requires spec.computeSpec.paramGrid != [] && i < |GridChunks(spec)|
    ensures var combos, chunk, p := Combos(spec.computeSpec.paramGrid), GridChunks(spec)[i], SliceCombos(spec)[i];
            && (forall c :: c in chunk ==> c in p)
            && (forall c :: c in p ==> c in combos)
            && |p| == Pow(|chunk|, |spec.computeSpec.paramGrid|)
            && |p| >= |chunk|
            && (|p| == |chunk| <==> |spec.computeSpec.paramGrid| == 1 || |chunk| == 1)
            && (|p| == |chunk| ==> multiset(p) == multiset(chunk))
  {
    var grid := spec.computeSpec.paramGrid;
    SliceIsColumns(spec, i);
    ChunkSizes(Combos(grid), GridSize(spec), i);
    var chunk := GridChunks(spec)[i];
    forall r | 0 <= r < |chunk|
      ensures chunk[r] in Product(Values(grid)) && |chunk[r]| == |grid|
    {
      ChunkMember(Combos(grid), GridSize(spec), i, r);
    }
    ChunkExpands(Values(grid), chunk);
  }

  /** Chunk sizes are all one exactly when the chunk size is. */
  lemma UnitChunks(spec: TaskSpec)
    ensures (forall i :: 0 <= i < |GridChunks(spec)| ==> |GridChunks(spec)[i]| == 1) <==> GridSize(spec) == 1
  {
    var combos, size := Combos(spec.computeSpec.paramGrid), GridSize(spec);
    var chunks := GridChunks(spec);
    forall i | 0 <= i < |chunks|
      ensures 1 <= |chunks[i]| <= size
    {
      ChunkSizes(combos, size, i);
    }
    if size >= 2 {
      SizeWithin(|combos|, Workers(spec));
      ChunkSizes(combos, size, 0);
    }
  }

  lemma GridExpansion(spec: TaskSpec)
    requires spec.computeSpec.paramGrid != []
    ensures Expansion(Combos(spec.computeSpec.paramGrid), GridChunks(spec), SliceCombos(spec))
    ensures (forall i :: 0 <= i < |GridChunks(spec)| ==> |SliceCombos(spec)[i]| == |GridChunks(spec)[i]|) <==>
      |spec.computeSpec.paramGrid| == 1 || GridSize(spec) == 1
  {
    var chunks, expanded := GridChunks(spec), SliceCombos(spec);
    ChunksCover(Combos(spec.computeSpec.paramGrid), GridSize(spec));
    UnitChunks(spec);
    forall i | 0 <= i < |chunks|
      ensures (forall c :: c in chunks[i] ==> c in expanded[i])
      ensures (forall c :: c in expanded[i] ==> c in Combos(spec.computeSpec.paramGrid))
      ensures |expanded[i]| >= |chunks[i]|
      ensures |expanded[i]| == |chunks[i]| ==> multiset(expanded[i]) == multiset(chunks[i])
      ensures |expanded[i]| == |chunks[i]| <==> |spec.computeSpec.paramGrid| == 1 || |chunks[i]| == 1
    {
      GridChunkExpands(spec, i);
    }
  }

  /** Sharding a grid search, running every slice's own product and merging in any completion
      order reports the same set of rows as the unsharded search, and the same rows with
      multiplicity exactly when the grid has one parameter or the chunks are single combinations. */
  lemma GridSearchPreserved<R(!new)>(spec: TaskSpec, row: seq<string> -> R, partials: seq<Payload<R>>)
    requires spec.computeSpec.paramGrid != [] && GridSlices(spec) != []
    requires |partials| == |GridSlices(spec)| && forall i :: 0 <= i < |partials| ==> partials[i].Frame?
    requires Arrives(Rows(partials), MapEach(SliceCombos(spec), row))
    ensures MergeResults("grid_search", partials).Frame?
    ensures forall x :: x in MergeResults("grid_search", partials).rows <==> x in GridRun(spec, row)
    ensures multiset(MergeResults("grid_search", partials).rows) == multiset(GridRun(spec, row)) <==>
      |spec.computeSpec.paramGrid| == 1 || GridSize(spec) == 1
  {
    GridExpansion(spec);
    MergeFrames("grid_search", partials);
    SplitRowSet(Combos(spec.computeSpec.paramGrid), GridChunks(spec), SliceCombos(spec), row, Rows(partials));
    SplitRows(Combos(spec.computeSpec.paramGrid), GridChunks(spec), SliceCombos(spec), row, Rows(partials));
  }
}
