// Multiple-testing corrections: the Bonferroni formula and the in-place
// running-minimum (Benjamini-Hochberg) and running-maximum (Holm) loops, with
// order-free closed forms.
module MultipleTesting {
  import opened Reals

  function Quotient(x: real, n: real, c: real): real
    requires c != 0.0
  {
    x * n / c
  }

  // ---------------------------------------------------------------- sorting permutations

  ghost predicate IsPermutation(order: seq<nat>, n: nat) {
    && |order| == n
    && (forall i :: 0 <= i < n ==> order[i] < n)
    && (forall i, j :: 0 <= i < j < n ==> order[i] != order[j])
  }

  /** order sorts p; ties may be broken in any way. */
  ghost predicate IsArgsort(order: seq<nat>, p: seq<real>) {
    && IsPermutation(order, |p|)
    && (forall i, j :: 0 <= i < j < |p| ==> p[order[i]] <= p[order[j]])
  }

  function Range(n: nat): (r: set<nat>)
    ensures forall k: nat :: k in r <==> k < n
    ensures |r| == n
  {
    if n == 0 then {} else
      var rest := Range(n - 1);
      assert n - 1 !in rest;
      rest + {n - 1}
  }

  ghost function Image(order: seq<nat>, c: nat): (s: set<nat>)
    requires c <= |order|
    requires forall i, j :: 0 <= i < j < |order| ==> order[i] != order[j]
    ensures |s| == c
    ensures forall k :: k in s <==> exists i :: 0 <= i < c && order[i] == k
  {
    if c == 0 then {} else Image(order, c - 1) + {order[c - 1]}
  }

  lemma SubsetCardinality(a: set<nat>, b: set<nat>)
    requires a <= b && |a| == |b|
    ensures a == b
  {
    assert |b - a| == |b| - |a|;
  }

  lemma PermutationHits(order: seq<nat>, n: nat, k: nat)
    requires IsPermutation(order, n) && k < n
    ensures exists i :: 0 <= i < n && order[i] == k
  {
    SubsetCardinality(Image(order, n), Range(n));
    assert k in Image(order, n);
  }

  /** A set of indices that order lists first is counted by where the listing stops. */
  lemma PrefixCount(order: seq<nat>, n: nat, c: nat, s: set<nat>)
    requires IsPermutation(order, n) && c <= n
    requires forall k :: k in s ==> k < n
    requires forall i :: 0 <= i < n ==> (order[i] in s <==> i < c)
    ensures |s| == c
  {
    forall k | k in s
      ensures k in Image(order, c)
    {
      PermutationHits(order, n, k);
    }
    assert s == Image(order, c);
  }

  function AtMost(p: seq<real>, x: real): (c: nat)
    ensures c <= |p|
  {
    var s := set k: nat | k < |p| && p[k] <= x;
    assert s <= Range(|p|);
    Cardinality(s, Range(|p|));
    |s|
  }

  function Below(p: seq<real>, x: real): (c: nat)
    ensures c <= |p|
  {
    var s := set k: nat | k < |p| && p[k] < x;
    assert s <= Range(|p|);
    Cardinality(s, Range(|p|));
    |s|
  }

  lemma Cardinality(a: set<nat>, b: set<nat>)
    requires a <= b
    ensures |a| <= |b|
  {
    assert |b - a| == |b| - |a|;
  }

  /** Last position of the value at position i in sorted order. */
  ghost function LastTie(p: seq<real>, order: seq<nat>, i: nat): (j: nat)
    requires IsArgsort(order, p) && i < |p|
    ensures i <= j < |p| && p[order[j]] == p[order[i]] && AtMost(p, p[order[i]]) == j + 1
    decreases |p| - i
  {
    if i + 1 < |p| && p[order[i + 1]] == p[order[i]] then LastTie(p, order, i + 1)
    else
      PrefixCount(order, |p|, i + 1, set k: nat | k < |p| && p[k] <= p[order[i]]);
      i
  }

  /** First position of the value at position i in sorted order. */
  ghost function FirstTie(p: seq<real>, order: seq<nat>, i: nat): (j: nat)
    requires IsArgsort(order, p) && i < |p|
    ensures j <= i && p[order[j]] == p[order[i]] && Below(p, p[order[i]]) == j
  {
    if i > 0 && p[order[i - 1]] == p[order[i]] then FirstTie(p, order, i - 1)
    else
      PrefixCount(order, |p|, i, set k: nat | k < |p| && p[k] < p[order[i]]);
      i
  }

  // ---------------------------------------------------------------- the loops

  /** The first m step-up terms p(j) n / (j + 1) in sorted order. */
  function UpTerms(p: seq<real>, order: seq<nat>, m: nat): (terms: seq<real>)
    requires m <= |order| == |p| && forall i :: 0 <= i < |order| ==> order[i] < |p|
    ensures |terms| == m
  {
    if m == 0 then []
    else UpTerms(p, order, m - 1) + [Quotient(p[order[m - 1]], |p| as real, m as real)]
  }

  /** The first m step-down terms p(j) (n - j) in sorted order. */
  function DownTerms(p: seq<real>, order: seq<nat>, m: nat): (terms: seq<real>)
    requires m <= |order| == |p| && forall i :: 0 <= i < |order| ==> order[i] < |p|
    ensures |terms| == m
  {
    if m == 0 then []
    else DownTerms(p, order, m - 1) + [Times(p[order[m - 1]], (|p| - m + 1) as real)]
  }

  lemma {:induction false} TermsAt(p: seq<real>, order: seq<nat>, m: nat, j: nat)
    requires j < m <= |order| == |p| && forall i :: 0 <= i < |order| ==> order[i] < |p|
    ensures UpTerms(p, order, m)[j] == Quotient(p[order[j]], |p| as real, (j + 1) as real)
    ensures DownTerms(p, order, m)[j] == Times(p[order[j]], (|p| - j) as real)
  {
    if j < m - 1 {
      TermsAt(p, order, m - 1, j);
    } else {
      assert j + 1 == m;
    }
  }

  /** v is the smallest of 1 and the terms from position i on. */
  ghost predicate StepUp(terms: seq<real>, i: nat, v: real) {
    && v <= 1.0
    && (forall j :: i <= j < |terms| ==> v <= terms[j])
    && (v == 1.0 || exists j :: i <= j < |terms| && v == terms[j])
  }

  /** v is the largest of 0 and the terms before position i. */
  ghost predicate StepDown(terms: seq<real>, i: nat, v: real) {
    && v >= 0.0
    && (forall j :: 0 <= j < i && j < |terms| ==> v >= terms[j])
    && (v == 0.0 || exists j :: 0 <= j < i && j < |terms| && v == terms[j])
  }

  /** v is a capped running maximum at position i. */
  ghost predicate CappedStepDown(terms: seq<real>, i: nat, v: real) {
    exists w :: StepDown(terms, i + 1, w) && v == Min(w, 1.0)
  }

  method UpTerm(p: seq<real>, order: seq<nat>, i: nat) returns (val: real)
    requires IsPermutation(order, |p|) && i < |p|
    ensures val == UpTerms(p, order, |p|)[i]
  {
    TermsAt(p, order, |p|, i);
    val := p[order[i]] * |p| as real / (i + 1) as real;
  }

  method DownTerm(p: seq<real>, order: seq<nat>, i: nat) returns (val: real)
    requires IsPermutation(order, |p|) && i < |p|
    ensures val == DownTerms(p, order, |p|)[i]
  {
    TermsAt(p, order, |p|, i);
    val := p[order[i]] * (|p| - i) as real;
  }

  method BenjaminiHochberg(p: seq<real>, order: seq<nat>) returns (adjusted: seq<real>)
    requires IsArgsort(order, p)
    ensures |adjusted| == |p|
    ensures forall i :: 0 <= i < |p| ==> StepUp(UpTerms(p, order, |p|), i, adjusted[order[i]])
  {
    var n := |p|;
    ghost var terms := UpTerms(p, order, n);
    var a := new real[n](_ => 0.0);
    var prev := 1.0;
    var i := n;
    while i > 0
      invariant 0 <= i <= n
      invariant StepUp(terms, i, prev)
      invariant forall j :: i <= j < n ==> StepUp(terms, j, a[order[j]])
    {
      i := i - 1;
      var idx := order[i];
      var val := UpTerm(p, order, i);
      StepUpExtends(terms, i, prev);
      prev := Min(prev, val);
      a[idx] := Min(prev, 1.0);
    }
    return a[..];
  }

  lemma StepUpExtends(terms: seq<real>, i: nat, v: real)
    requires i < |terms| && StepUp(terms, i + 1, v)
    ensures StepUp(terms, i, Min(v, terms[i])) && Min(Min(v, terms[i]), 1.0) == Min(v, terms[i])
  {
    var w := Min(v, terms[i]);
    if w != 1.0 {
      var j := if v <= terms[i] then (var j :| i + 1 <= j < |terms| && v == terms[j]; j) else i;
      assert w == terms[j];
    }
  }

  lemma StepDownExtends(terms: seq<real>, i: nat, v: real)
    requires i < |terms| && StepDown(terms, i, v)
    ensures StepDown(terms, i + 1, Max(v, terms[i]))
    ensures CappedStepDown(terms, i, Min(Max(v, terms[i]), 1.0))
  {
    var w := Max(v, terms[i]);
    if w != 0.0 {
      var j := if v >= terms[i] then (var j :| 0 <= j < i && v == terms[j]; j) else i;
      assert w == terms[j];
    }
    assert StepDown(terms, i + 1, w);
  }

  method Holm(p: seq<real>, order: seq<nat>) returns (adjusted: seq<real>)
    requires IsArgsort(order, p)
    ensures |adjusted| == |p|
    ensures forall i :: 0 <= i < |p| ==> CappedStepDown(DownTerms(p, order, |p|), i, adjusted[order[i]])
  {
    var n := |p|;
    ghost var terms := DownTerms(p, order, n);
    var a := new real[n](_ => 0.0);
    var prev := 0.0;
    var i := 0;
    while i < n
      invariant 0 <= i <= n
      invariant StepDown(terms, i, prev)
      invariant forall j :: 0 <= j < i ==> CappedStepDown(terms, j, a[order[j]])
    {
      var idx := order[i];
      var val := DownTerm(p, order, i);
      StepDownExtends(terms, i, prev);
      prev := Max(prev, val);
      a[idx] := Min(prev, 1.0);
      i := i + 1;
    }
    return a[..];
  }

  function Bonferroni(p: seq<real>): (adjusted: seq<real>)
    ensures |adjusted| == |p|
  {
    seq(|p|, k requires 0 <= k < |p| => Min(Times(p[k], |p| as real), 1.0))
  }

  // ---------------------------------------------------------------- order-free closed forms

  ghost predicate Probabilities(p: seq<real>) {
    forall k :: 0 <= k < |p| ==> 0.0 <= p[k] <= 1.0
  }

  /** For the first m p-values: n p(k) / #{p <= p(k)}. */
  ghost function UpRatios(p: seq<real>, m: nat): (r: seq<real>)
    requires m <= |p|
    ensures |r| == m
  {
    if m == 0 then []
    else
      CountsAt(p, m - 1);
      UpRatios(p, m - 1) + [Quotient(p[m - 1], |p| as real, AtMost(p, p[m - 1]) as real)]
  }

  /** For the first m p-values: (n - #{p < p(k)}) p(k). */
  ghost function DownProducts(p: seq<real>, m: nat): (r: seq<real>)
    requires m <= |p|
    ensures |r| == m
  {
    if m == 0 then []
    else DownProducts(p, m - 1) + [Times(p[m - 1], (|p| - Below(p, p[m - 1])) as real)]
  }

  lemma CountsAt(p: seq<real>, k: nat)
    requires k < |p|
    ensures Below(p, p[k]) + 1 <= AtMost(p, p[k]) <= |p|
  {
    var below := set j: nat | j < |p| && p[j] < p[k];
    var atMost := set j: nat | j < |p| && p[j] <= p[k];
    assert k !in below;
    Cardinality(below + {k}, atMost);
  }

  lemma {:induction false} RatiosAt(p: seq<real>, m: nat, k: nat)
    requires k < m <= |p|
    ensures AtMost(p, p[k]) > 0
    ensures UpRatios(p, m)[k] == Quotient(p[k], |p| as real, AtMost(p, p[k]) as real)
    ensures DownProducts(p, m)[k] == Times(p[k], (|p| - Below(p, p[k])) as real)
  {
    CountsAt(p, k);
    if k < m - 1 {
      RatiosAt(p, m - 1, k);
    }
  }

  /** v = min(1, min of the ratios over the p-values not below x). */
  ghost predicate AdjustedUp(p: seq<real>, x: real, v: real) {
    var ratios := UpRatios(p, |p|);
    && v <= 1.0
    && (forall k :: 0 <= k < |p| && p[k] >= x ==> v <= ratios[k])
    && (v == 1.0 || exists k :: 0 <= k < |p| && p[k] >= x && v == ratios[k])
  }

  /** v = min(1, max of the products over the p-values not above x). */
  ghost predicate AdjustedDown(p: seq<real>, x: real, v: real) {
    var products := DownProducts(p, |p|);
    && v <= 1.0
    && (v == 1.0 || forall k :: 0 <= k < |p| && p[k] <= x ==> products[k] <= v)
    && (exists k :: 0 <= k < |p| && p[k] <= x && v <= products[k])
  }

  // ---------------------------------------------------------------- real arithmetic

  lemma QuotientBound(x: real, n: real, c: real, q: real)
    requires c > 0.0
    ensures Times(x, n) <= Times(q, c) <==> Quotient(x, n, c) <= q
    ensures Times(x, n) >= Times(q, c) <==> Quotient(x, n, c) >= q
  {
    assert Quotient(x, n, c) * c == x * n;
  }

  lemma QuotientShrinks(x: real, n: real, b: real, c: real)
    requires x >= 0.0 && n >= 0.0 && 0.0 < b <= c
    ensures Quotient(x, n, c) <= Quotient(x, n, b)
  {
    var q := Quotient(x, n, b);
    assert q * b == x * n;
    KeepOrder(0.0, x, n);
    assert q >= 0.0;
    KeepOrder(b, c, q);
    assert q * b <= q * c;
    QuotientBound(x, n, c, q);
  }

  lemma NonNegative(a: real, b: real)
    requires 0.0 <= a && 0.0 <= b
    ensures 0.0 <= a * b
  {
  }

  lemma FactorOut(n: real, b: real, c: real)
    requires 0.0 <= b && b + 1.0 <= c <= n
    ensures n <= (n - b) * c
  {
    var d, e := n - b - 1.0, c - b - 1.0;
    NonNegative(b, d);
    NonNegative(d + 1.0, e);
    assert (n - b) * c == (d + 1.0) * e + (d + 1.0) * b + (d + 1.0);
    assert (d + 1.0) * b == b * d + b;
  }

  /** x <= x n / c <= x (n - b) <= x n for b + 1 <= c <= n. */
  lemma RatioChain(x: real, n: real, b: real, c: real)
    requires 0.0 <= x && 0.0 <= b && b + 1.0 <= c <= n
    ensures x <= Quotient(x, n, c) <= Times(x, n - b) <= Times(x, n)
  {
    KeepOrder(c, n, x);
    assert x * c <= x * n;
    QuotientBound(x, n, c, x);
    FactorOut(n, b, c);
    KeepOrder(n, (n - b) * c, x);
    assert x * ((n - b) * c) == x * (n - b) * c;
    QuotientBound(x, n, c, Times(x, n - b));
    KeepOrder(n - b, n, x);
  }

  // ---------------------------------------------------------------- the loops compute the closed forms

  lemma TermBeyondTie(p: seq<real>, order: seq<nat>, j: nat)
    requires Probabilities(p) && IsArgsort(order, p) && j < |p|
    ensures UpRatios(p, |p|)[order[j]] == UpTerms(p, order, |p|)[LastTie(p, order, j)]
    ensures UpRatios(p, |p|)[order[j]] <= UpTerms(p, order, |p|)[j]
    ensures DownProducts(p, |p|)[order[j]] == DownTerms(p, order, |p|)[FirstTie(p, order, j)]
    ensures DownProducts(p, |p|)[order[j]] >= DownTerms(p, order, |p|)[j]
  {
    var last, first := LastTie(p, order, j), FirstTie(p, order, j);
    RatiosAt(p, |p|, order[j]);
    TermsAt(p, order, |p|, j);
    TermsAt(p, order, |p|, last);
    TermsAt(p, order, |p|, first);
    QuotientShrinks(p[order[j]], |p| as real, (j + 1) as real, (last + 1) as real);
    KeepOrder((|p| - j) as real, (|p| - first) as real, p[order[j]]);
  }

  /** The running minimum at position i is the closed form for the p-value found there,
      however ties were ordered. */
  lemma StepUpClosedForm(p: seq<real>, order: seq<nat>, i: nat, v: real)
    requires Probabilities(p) && IsArgsort(order, p) && i < |p|
    requires StepUp(UpTerms(p, order, |p|), i, v)
    ensures AdjustedUp(p, p[order[i]], v)
  {
    var x := p[order[i]];
    var terms, ratios := UpTerms(p, order, |p|), UpRatios(p, |p|);
    forall k | 0 <= k < |p| && p[k] >= x
      ensures v <= ratios[k]
    {
      PermutationHits(order, |p|, k);
      var m :| 0 <= m < |p| && order[m] == k;
      TermBeyondTie(p, order, m);
      LastTieFrom(p, order, i, m);
    }
    if v != 1.0 {
      var j :| i <= j < |p| && v == terms[j];
      TermBeyondTie(p, order, j);
      assert p[order[j]] >= x by { if i < j {} }
    }
  }

  lemma {:induction false} LastTieFrom(p: seq<real>, order: seq<nat>, i: nat, m: nat)
    requires IsArgsort(order, p) && i < |p| && m < |p| && p[order[m]] >= p[order[i]]
    ensures LastTie(p, order, m) >= i
  {
    if m < i {
      var last := LastTie(p, order, m);
      assert p[order[m]] <= p[order[i]];
      var last' := LastTie(p, order, i);
      assert last' + 1 == last + 1;
    }
  }

  lemma {:induction false} FirstTieFrom(p: seq<real>, order: seq<nat>, i: nat, m: nat)
    requires IsArgsort(order, p) && i < |p| && m < |p| && p[order[m]] <= p[order[i]]
    ensures FirstTie(p, order, m) <= i
  {
    if m > i {
      assert p[order[i]] <= p[order[m]];
      assert FirstTie(p, order, m) == FirstTie(p, order, i);
    }
  }

  /** The running maximum up to position i covers every p-value not above the one there ... */
  lemma StepDownCovers(p: seq<real>, order: seq<nat>, i: nat, w: real, k: nat)
    requires IsArgsort(order, p) && i < |p| && StepDown(DownTerms(p, order, |p|), i + 1, w)
    requires Probabilities(p) && k < |p| && p[k] <= p[order[i]]
    ensures DownProducts(p, |p|)[k] <= w
  {
    PermutationHits(order, |p|, k);
    var m :| 0 <= m < |p| && order[m] == k;
    TermBeyondTie(p, order, m);
    FirstTieFrom(p, order, i, m);
  }

  /** ... and is no larger than the product of one of them. */
  lemma StepDownAttained(p: seq<real>, order: seq<nat>, i: nat, w: real) returns (k: nat)
    requires IsArgsort(order, p) && i < |p| && StepDown(DownTerms(p, order, |p|), i + 1, w)
    requires Probabilities(p)
    ensures k < |p| && p[k] <= p[order[i]] && w <= DownProducts(p, |p|)[k]
  {
    var terms := DownTerms(p, order, |p|);
    var j := 0;
    if w != 0.0 {
      j :| 0 <= j < i + 1 && j < |terms| && w == terms[j];
    } else {
      TermsAt(p, order, |p|, 0);
      KeepOrder(0.0, p[order[0]], |p| as real);
    }
    TermBeyondTie(p, order, j);
    k := order[j];
    assert p[order[j]] <= p[order[i]] by { if j < i {} }
  }

  /** Likewise for the capped running maximum. */
  lemma StepDownClosedForm(p: seq<real>, order: seq<nat>, i: nat, v: real)
    requires Probabilities(p) && IsArgsort(order, p) && i < |p|
    requires CappedStepDown(DownTerms(p, order, |p|), i, v)
    ensures AdjustedDown(p, p[order[i]], v)
  {
    var w :| StepDown(DownTerms(p, order, |p|), i + 1, w) && v == Min(w, 1.0);
    forall k | 0 <= k < |p| && p[k] <= p[order[i]]
      ensures DownProducts(p, |p|)[k] <= w
    {
      StepDownCovers(p, order, i, w, k);
    }
    var k := StepDownAttained(p, order, i, w);
    assert v <= DownProducts(p, |p|)[k];
  }

  /** The closed forms have one value each. */
  lemma ClosedFormsUnique(p: seq<real>, x: real, v: real, v': real)
    ensures AdjustedUp(p, x, v) && AdjustedUp(p, x, v') ==> v == v'
    ensures AdjustedDown(p, x, v) && AdjustedDown(p, x, v') ==> v == v'
  {
  }

  /** Hence neither correction depends on the order in which argsort lists ties. */
  lemma TieOrderIrrelevant(p: seq<real>, order: seq<nat>, order': seq<nat>, i: nat, i': nat, v: real, v': real)
    requires Probabilities(p) && IsArgsort(order, p) && IsArgsort(order', p)
    requires i < |p| && i' < |p| && order[i] == order'[i']
    ensures StepUp(UpTerms(p, order, |p|), i, v) && StepUp(UpTerms(p, order', |p|), i', v') ==> v == v'
    ensures CappedStepDown(DownTerms(p, order, |p|), i, v) && CappedStepDown(DownTerms(p, order', |p|), i', v') ==>
              v == v'
  {
    ClosedFormsUnique(p, p[order[i]], v, v');
    if StepUp(UpTerms(p, order, |p|), i, v) && StepUp(UpTerms(p, order', |p|), i', v') {
      StepUpClosedForm(p, order, i, v);
      StepUpClosedForm(p, order', i', v');
    }
    if CappedStepDown(DownTerms(p, order, |p|), i, v) && CappedStepDown(DownTerms(p, order', |p|), i', v') {
      StepDownClosedForm(p, order, i, v);
      StepDownClosedForm(p, order', i', v');
    }
  }

  // ---------------------------------------------------------------- comparing the corrections

  lemma RatioBounds(p: seq<real>, k: nat)
    requires Probabilities(p) && k < |p|
    ensures p[k] <= UpRatios(p, |p|)[k] <= DownProducts(p, |p|)[k] <= Times(p[k], |p| as real)
  {
    var ratio, product := RatioAndProduct(p, k);
    CountsAt(p, k);
    CountedChain(p[k], |p|, Below(p, p[k]), AtMost(p, p[k]), ratio, product);
  }

  lemma RatioAndProduct(p: seq<real>, k: nat) returns (ratio: real, product: real)
    requires k < |p|
    ensures UpRatios(p, |p|)[k] == ratio && DownProducts(p, |p|)[k] == product
    ensures AtMost(p, p[k]) > 0 && ratio == Quotient(p[k], |p| as real, AtMost(p, p[k]) as real)
    ensures product == Times(p[k], (|p| - Below(p, p[k])) as real)
  {
    RatiosAt(p, |p|, k);
    ratio, product := UpRatios(p, |p|)[k], DownProducts(p, |p|)[k];
  }

  lemma CountedChain(x: real, n: nat, below: nat, atMost: nat, ratio: real, product: real)
    requires 0.0 <= x && below + 1 <= atMost <= n
    requires ratio == Quotient(x, n as real, atMost as real) && product == Times(x, (n - below) as real)
    ensures x <= ratio <= product <= Times(x, n as real)
  {
    assert (n - below) as real == n as real - below as real;
    RatioChain(x, n as real, below as real, atMost as real);
  }

  /** Pointwise, and from below: the p-value, Benjamini-Hochberg, Holm, Bonferroni. */
  lemma CorrectionsOrdered(p: seq<real>, k: nat, bh: real, holm: real)
    requires Probabilities(p) && k < |p|
    requires AdjustedUp(p, p[k], bh) && AdjustedDown(p, p[k], holm)
    ensures p[k] <= bh <= holm <= Bonferroni(p)[k]
  {
    RatioBounds(p, k);
    if bh != 1.0 {
      var j :| 0 <= j < |p| && p[j] >= p[k] && bh == UpRatios(p, |p|)[j];
      RatioBounds(p, j);
    }
    var j :| 0 <= j < |p| && p[j] <= p[k] && holm <= DownProducts(p, |p|)[j];
    RatioBounds(p, j);
    KeepOrder(p[j], p[k], |p| as real);
  }

  /** The arrays that the two loops return, each for any order of ties, with Bonferroni's. */
  lemma ReturnedArraysOrdered(p: seq<real>, order: seq<nat>, order': seq<nat>, bh: seq<real>, holm: seq<real>, k: nat)
    requires Probabilities(p) && IsArgsort(order, p) && IsArgsort(order', p) && |bh| == |holm| == |p| && k < |p|
    requires forall i :: 0 <= i < |p| ==> StepUp(UpTerms(p, order, |p|), i, bh[order[i]])
    requires forall i :: 0 <= i < |p| ==> CappedStepDown(DownTerms(p, order', |p|), i, holm[order'[i]])
    ensures p[k] <= bh[k] <= holm[k] <= Bonferroni(p)[k]
  {
    PermutationHits(order, |p|, k);
    var i :| 0 <= i < |p| && order[i] == k;
    StepUpClosedForm(p, order, i, bh[k]);
    PermutationHits(order', |p|, k);
    var i' :| 0 <= i' < |p| && order'[i'] == k;
    StepDownClosedForm(p, order', i', holm[k]);
    CorrectionsOrdered(p, k, bh[k], holm[k]);
  }

  /** p(k) passes the step-up threshold alpha #{p <= p(k)} / n. */
  ghost predicate UpSmall(p: seq<real>, k: nat, alpha: real)
    requires k < |p|
  {
    Times(p[k], |p| as real) < Times(alpha, AtMost(p, p[k]) as real)
  }

  /** p(k) passes the step-down threshold alpha / (n - #{p < p(k)}). */
  ghost predicate DownSmall(p: seq<real>, k: nat, alpha: real)
    requires k < |p|
  {
    Times(p[k], (|p| - Below(p, p[k])) as real) < alpha
  }

  lemma UpThreshold(p: seq<real>, k: nat, alpha: real)
    requires k < |p|
    ensures UpRatios(p, |p|)[k] < alpha <==> UpSmall(p, k, alpha)
  {
    RatiosAt(p, |p|, k);
    var c := AtMost(p, p[k]);
    QuotientBound(p[k], |p| as real, c as real, alpha);
  }

  lemma DownThreshold(p: seq<real>, k: nat, alpha: real)
    requires k < |p|
    ensures DownProducts(p, |p|)[k] < alpha <==> DownSmall(p, k, alpha)
  {
    RatiosAt(p, |p|, k);
  }

  /** Benjamini-Hochberg rejects exactly the strict step-up set, Holm exactly the strict
      step-down set, Bonferroni exactly what is below an n-th of the level. */
  lemma RejectedSets(p: seq<real>, k: nat, bh: real, holm: real, alpha: real)
    requires Probabilities(p) && alpha <= 1.0 && k < |p|
    requires AdjustedUp(p, p[k], bh) && AdjustedDown(p, p[k], holm)
    ensures bh < alpha <==> exists j :: 0 <= j < |p| && p[j] >= p[k] && UpSmall(p, j, alpha)
    ensures holm < alpha <==> forall j :: 0 <= j < |p| && p[j] <= p[k] ==> DownSmall(p, j, alpha)
    ensures Bonferroni(p)[k] <= 1.0 && (Bonferroni(p)[k] < alpha <==> Times(p[k], |p| as real) < alpha)
  {
    forall j | 0 <= j < |p|
      ensures UpRatios(p, |p|)[j] < alpha <==> UpSmall(p, j, alpha)
      ensures DownProducts(p, |p|)[j] < alpha <==> DownSmall(p, j, alpha)
    {
      UpThreshold(p, j, alpha);
      DownThreshold(p, j, alpha);
    }
  }
}
