// Recombining the results of a task's slices.
module Merge {
  import opened Seqs

  /** A decoded result: a table of rows, something else, or a list of such. */
  datatype Payload<R> = Nothing | Frame(rows: seq<R>) | Other(value: R) | Many(parts: seq<Payload<R>>)

  const TABULAR := {"grid_search", "batch_backtest", "monte_carlo", "bootstrap", "permutation_test"}

  function Rows<R>(partials: seq<Payload<R>>): (r: seq<seq<R>>)
    requires forall i :: 0 <= i < |partials| ==> partials[i].Frame?
    ensures |r| == |partials| && forall i :: 0 <= i < |r| ==> r[i] == partials[i].rows
  {
    seq(|partials|, i requires 0 <= i < |partials| => partials[i].rows)
  }

  /** The merged result of partial results in the order in which their slices first reported. */
  function MergeResults<R>(taskType: string, partials: seq<Payload<R>>): Payload<R> {
    if |partials| == 0 then Nothing
    else if |partials| == 1 then partials[0]
    else if taskType in TABULAR then
      if forall i :: 0 <= i < |partials| ==> partials[i].Frame? then Frame(Flatten(Rows(partials))) else Many(partials)
    else partials[0]
  }

  /** Tabular results of one slice or more merge into one table of all their rows. */
  lemma MergeFrames<R>(taskType: string, partials: seq<Payload<R>>)
    requires taskType in TABULAR && partials != []
    requires forall i :: 0 <= i < |partials| ==> partials[i].Frame?
    ensures MergeResults(taskType, partials) == Frame(Flatten(Rows(partials)))
  {
    if |partials| == 1 {
      var r := Rows(partials);
      assert Flatten(r) == r[0] + Flatten(r[1..]) == r[0];
    }
  }

  /** Tasks whose results are tables of rows. */
  predicate IsTabular(taskType: string) {
    match taskType
    case "grid_search" => true
    case "batch_backtest" => true
    case "monte_carlo" => true
    case "bootstrap" => true
    case "permutation_test" => true
    case _ => false
  }

  /** What is to be delivered for results in order of their first reports: nothing for none, a single
      one itself, tables as one table if all are, other results of tabular tasks as their list, and
      the first of the results of any other task. */
  ghost predicate Delivers<R>(taskType: string, results: seq<Payload<R>>, merged: Payload<R>) {
    && (results == [] ==> merged == Nothing)
    && (|results| == 1 ==> merged == results[0])
    && (|results| >= 2 && !IsTabular(taskType) ==> merged == results[0])
    && (|results| >= 2 && IsTabular(taskType) ==>
         if forall i :: 0 <= i < |results| ==> results[i].Frame?
         then merged.Frame? && merged.rows == Flatten(Rows(results))
         else merged == Many(results))
  }

  lemma MergeDelivers<R>(taskType: string, results: seq<Payload<R>>)
    ensures Delivers(taskType, results, MergeResults(taskType, results))
  {
  }

  /** Replacing the result of slice i by x changes the merge. */
  ghost predicate Changes<R>(taskType: string, a: seq<Payload<R>>, i: nat, x: Payload<R>) {
    i < |a| && MergeResults(taskType, a[i := x]) != MergeResults(taskType, a)
  }

  /** Replacing the result of slice i can change the merge of n results. */
  ghost predicate Matters<R(!new)>(taskType: string, n: nat, i: nat)
    requires i < n
  {
    exists a: seq<Payload<R>>, x :: |a| == n && Changes(taskType, a, i, x)
  }

  /** The merge depends on the result of every slice exactly when there is at most one slice or the
      type is tabular; otherwise only the slice that reported first matters. */
  lemma EveryResultMattersIff<R(!new)>(taskType: string, n: nat)
    ensures (forall i :: 0 <= i < n ==> Matters<R>(taskType, n, i)) <==> n <= 1 || taskType in TABULAR
  {
    if n <= 1 || taskType in TABULAR {
      forall i | 0 <= i < n
        ensures Matters<R>(taskType, n, i)
      {
        var a := seq(n, _ => Payload<R>.Nothing);
        assert a[i := Many([])][i] != a[i];
        assert Changes(taskType, a, i, Many([]));
      }
    } else {
      forall a: seq<Payload<R>>, x | |a| == n
        ensures !Changes(taskType, a, 1, x)
      {
      }
      assert !Matters<R>(taskType, n, 1);
    }
  }
}
