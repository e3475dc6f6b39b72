// Slice identifiers: how a slice id is built from its task id and how the
// dispatcher recovers the task id from it.
module SliceIds {

  /** The two characters "-s" stand at position k of s. */
  predicate MarkerAt(s: string, k: int) {
    0 <= k < |s| - 1 && s[k] == '-' && s[k + 1] == 's'
  }

  predicate HasMarker(s: string) {
    exists k :: 0 <= k < |s| && MarkerAt(s, k)
  }

  /** Position of the rightmost "-s", or -1. */
  function LastMarker(s: string): (k: int)
    ensures k == -1 || MarkerAt(s, k)
    ensures forall j :: MarkerAt(s, j) ==> j <= k
  {
    LastMarkerBelow(s, |s|)
  }

  function LastMarkerBelow(s: string, hi: nat): (k: int)
    requires hi <= |s|
    ensures k == -1 || (k < hi && MarkerAt(s, k))
    ensures forall j :: j < hi && MarkerAt(s, j) ==> j <= k
  {
    if hi == 0 then -1
    else if MarkerAt(s, hi - 1) then hi - 1
    else LastMarkerBelow(s, hi - 1)
  }

  /** The task id a slice id is routed to: everything before the last "-s". */
  function Parent(id: string): string {
    if HasMarker(id) then id[..LastMarker(id)] else id
  }

  /** Decimal notation, without leading zeros. */
  function Decimal(n: nat): string {
    if n < 10 then [Digit(n)] else Decimal(n / 10) + [Digit(n % 10)]
  }

  function Digit(d: nat): char
    requires d < 10
  {
    '0' + d as char
  }

  /** The number a digit string denotes. */
  function Number(s: string): nat
    requires AllDigits(s)
  {
    if s == "" then 0
    else 10 * Number(s[..|s| - 1]) + (s[|s| - 1] as int - '0' as int)
  }

  predicate AllDigits(s: string) {
    forall i :: 0 <= i < |s| ==> '0' <= s[i] <= '9'
  }

  function SliceId(task: string, i: nat): string {
    task + "-s" + Decimal(i)
  }

  lemma {:induction false} DecimalDigits(n: nat)
    ensures AllDigits(Decimal(n)) && Decimal(n) != "" && Number(Decimal(n)) == n
    ensures Decimal(n)[0] == '0' ==> n == 0 && Decimal(n) == "0"
  {
    if n < 10 {
      assert Decimal(n)[..0] == "";
    } else {
      DecimalDigits(n / 10);
      assert Decimal(n)[..|Decimal(n)| - 1] == Decimal(n / 10);
    }
  }

  lemma DecimalInjective(m: nat, n: nat)
    requires Decimal(m) == Decimal(n)
    ensures m == n
  {
    DecimalDigits(m);
    DecimalDigits(n);
  }

  /** A slice id is the task id, "-s" and the index in decimal, and is routed back to exactly the task
      that was sharded. */
  lemma ParentOfSliceId(task: string, i: nat)
    ensures var id := SliceId(task, i);
            && id[..|task|] == task && |id| >= |task| + 3 && id[|task|] == '-' && id[|task| + 1] == 's'
            && AllDigits(id[|task| + 2..]) && Number(id[|task| + 2..]) == i
            && (id[|task| + 2] == '0' ==> i == 0 && |id| == |task| + 3)
    ensures HasMarker(SliceId(task, i))
    ensures Parent(SliceId(task, i)) == task
  {
    var id := SliceId(task, i);
    DecimalDigits(i);
    var d := Decimal(i);
    assert id[|task| + 2..] == d;
    assert MarkerAt(id, |task|);
    forall j | |task| + 2 <= j < |id|
      ensures id[j] != '-'
    {
      assert id[j] == d[j - |task| - 2];
    }
    assert LastMarker(id) == |task|;
    assert id[..|task|] == task;
  }

  /** Two slice ids coincide only for the same task and the same index. */
  lemma SliceIdInjective(task: string, i: nat, task': string, i': nat)
    ensures SliceId(task, i) == SliceId(task', i') <==> task == task' && i == i'
  {
    if SliceId(task, i) == SliceId(task', i') {
      ParentOfSliceId(task, i);
      ParentOfSliceId(task', i');
      assert SliceId(task, i)[|task| + 2..] == Decimal(i);
      assert SliceId(task', i')[|task| + 2..] == Decimal(i');
      DecimalInjective(i, i');
    }
  }

  /** An unsharded task id is its own routing target exactly when it contains no "-s". */
  lemma SelfRoutedIff(id: string)
    ensures Parent(id) == id <==> !HasMarker(id)
  {
    if HasMarker(id) {
      var k :| MarkerAt(id, k);
      assert LastMarker(id) >= k;
    }
  }

  /** No unsharded, self-routed id is the id of some slice. */
  lemma SelfRoutedIsNoSlice(id: string, task: string, i: nat)
    requires Parent(id) == id
    ensures id != SliceId(task, i)
  {
    SelfRoutedIff(id);
    ParentOfSliceId(task, i);
  }
}
