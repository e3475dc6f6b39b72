// The Kaplan-Meier product-limit estimate and the empirical distribution
// function it reduces to when nothing is censored.
module Survival {
  import opened Protocol
  import opened Reals
  import opened Seqs

  /** One observed subject: how long, and 1 for an event or 0 for censoring. */
  datatype Subject = Subject(duration: real, event: real)

  /** Both arrays reordered by the argsort of the durations. */
  ghost predicate IsSortOf(sorted: seq<Subject>, subjects: seq<Subject>) {
    && multiset(sorted) == multiset(subjects)
    && forall i, j :: 0 <= i < j < |sorted| ==> sorted[i].duration <= sorted[j].duration
  }

  /** The distinct durations, ascending. */
  ghost predicate IsUnique(times: seq<real>, subjects: seq<Subject>) {
    && (forall i, j :: 0 <= i < j < |times| ==> times[i] < times[j])
    && (forall i :: 0 <= i < |times| ==> exists k :: 0 <= k < |subjects| && subjects[k].duration == times[i])
    && (forall k :: 0 <= k < |subjects| ==> subjects[k].duration in times)
  }

  function AtRisk(s: seq<Subject>, t: real): nat {
    if s == [] then 0 else AtRisk(s[..|s| - 1], t) + if s[|s| - 1].duration >= t then 1 else 0
  }

  function Beyond(s: seq<Subject>, t: real): nat {
    if s == [] then 0 else Beyond(s[..|s| - 1], t) + if s[|s| - 1].duration > t then 1 else 0
  }

  function Exactly(s: seq<Subject>, t: real): nat {
    if s == [] then 0 else Exactly(s[..|s| - 1], t) + if s[|s| - 1].duration == t then 1 else 0
  }

  function Deaths(s: seq<Subject>, t: real): real {
    if s == [] then 0.0 else Deaths(s[..|s| - 1], t) + if s[|s| - 1].duration == t then s[|s| - 1].event else 0.0
  }

  /** The share of those at risk that survives. */
  function Factor(deaths: real, atRisk: nat): real {
    if atRisk > 0 then 1.0 - deaths / atRisk as real else 1.0
  }

  /** The estimate after the first j distinct times. */
  function Estimate(s: seq<Subject>, times: seq<real>, j: nat): real
    requires j <= |times|
  {
    if j == 0 then 1.0
    else Times(Estimate(s, times, j - 1), Factor(Deaths(s, times[j - 1]), AtRisk(s, times[j - 1])))
  }

  // ---------------------------------------------------------------- counting

  lemma {:induction false} CountsSplit(s: seq<Subject>, t: real)
    ensures AtRisk(s, t) == Exactly(s, t) + Beyond(s, t) <= |s|
  {
    if s != [] {
      CountsSplit(s[..|s| - 1], t);
    }
  }

  /** Nobody's duration lies strictly between t and u: those at risk at u are those beyond t. */
  lemma {:induction false} NextAtRisk(s: seq<Subject>, t: real, u: real)
    requires t < u && forall k :: 0 <= k < |s| ==> s[k].duration <= t || s[k].duration >= u
    ensures AtRisk(s, u) == Beyond(s, t)
  {
    if s != [] {
      NextAtRisk(s[..|s| - 1], t, u);
    }
  }

  lemma {:induction false} EveryoneAtRisk(s: seq<Subject>, t: real)
    requires forall k :: 0 <= k < |s| ==> s[k].duration >= t
    ensures AtRisk(s, t) == |s|
  {
    if s != [] {
      EveryoneAtRisk(s[..|s| - 1], t);
    }
  }

  lemma {:induction false} SomeExactly(s: seq<Subject>, t: real, k: nat)
    requires k < |s| && s[k].duration == t
    ensures Exactly(s, t) > 0
  {
    if k < |s| - 1 {
      SomeExactly(s[..|s| - 1], t, k);
    }
  }

  ghost predicate Indicators(s: seq<Subject>) {
    forall k :: 0 <= k < |s| ==> 0.0 <= s[k].event <= 1.0
  }

  lemma {:induction false} DeathsBounded(s: seq<Subject>, t: real)
    requires Indicators(s)
    ensures 0.0 <= Deaths(s, t) <= Exactly(s, t) as real
  {
    if s != [] {
      DeathsBounded(s[..|s| - 1], t);
    }
  }

  lemma {:induction false} DeathsUncensored(s: seq<Subject>, t: real)
    requires forall k :: 0 <= k < |s| && s[k].duration == t ==> s[k].event == 1.0
    ensures Deaths(s, t) == Exactly(s, t) as real
  {
    if s != [] {
      DeathsUncensored(s[..|s| - 1], t);
    }
  }

  lemma DropOne(s: seq<Subject>, i: nat, t: real)
    requires i < |s|
    ensures var r := s[..i] + s[i + 1..]; var one := s[i];
            && AtRisk(s, t) == AtRisk(r, t) + (if one.duration >= t then 1 else 0)
            && Exactly(s, t) == Exactly(r, t) + (if one.duration == t then 1 else 0)
            && Deaths(s, t) == Deaths(r, t) + (if one.duration == t then one.event else 0.0)
  {
    var r := s[..i] + s[i + 1..];
    if i == |s| - 1 {
      assert r == s[..i];
    } else {
      var s' := s[..|s| - 1];
      DropOne(s', i, t);
      assert r[..|r| - 1] == s'[..i] + s'[i + 1..] && r[|r| - 1] == s[|s| - 1];
    }
  }

  /** The counts depend on who was observed, not on the order of the arrays. */
  lemma {:induction false} OrderIrrelevant(a: seq<Subject>, b: seq<Subject>, t: real)
    requires multiset(a) == multiset(b)
    ensures AtRisk(a, t) == AtRisk(b, t) && Exactly(a, t) == Exactly(b, t) && Deaths(a, t) == Deaths(b, t)
    decreases |a|
  {
    assert |a| == |multiset(a)| == |multiset(b)| == |b|;
    if a != [] {
      var last := a[|a| - 1];
      assert a == a[..|a| - 1] + [last];
      var i := RemoveOne(a[..|a| - 1], last, b);
      DropOne(b, i, t);
      OrderIrrelevant(a[..|a| - 1], b[..i] + b[i + 1..], t);
    }
  }

  // ---------------------------------------------------------------- the estimator

  datatype Curve = Curve(points: seq<(real, real)>, median: Option<real>)

  method KaplanMeier(subjects: seq<Subject>, sorted: seq<Subject>, times: seq<real>) returns (curve: Curve)
    requires IsSortOf(sorted, subjects) && IsUnique(times, subjects)
    ensures |curve.points| == |times| + 1
    ensures curve.points[0] == (0.0, 1.0)
    ensures forall j :: 0 <= j < |times| ==>
      curve.points[j + 1] == (times[j], Estimate(subjects, times, j + 1))
    ensures IsMedian(curve.points, curve.median)
  {
    var nAtRisk := |sorted|;
    var survival := 1.0;
    var points := [(0.0, 1.0)];
    FirstAtRisk(subjects, sorted, times);
    for j := 0 to |times|
      invariant points == PointsUpTo(subjects, times, j)
      invariant survival == Estimate(subjects, times, j)
      invariant j < |times| ==> nAtRisk == AtRisk(subjects, times[j])
    {
      var t := times[j];
      var d, m := Masked(sorted, t);
      AtTime(subjects, sorted, times, j);
      survival := Scaled(survival, d, nAtRisk);
      points := points + [(t, survival)];
      nAtRisk := nAtRisk - m;
    }
    PointsAt(subjects, times, |times|);
    var median := Median(points);
    return Curve(points, median);
  }

  /** The curve's points up to the first j distinct times. */
  function PointsUpTo(s: seq<Subject>, times: seq<real>, j: nat): seq<(real, real)>
    requires j <= |times|
  {
    if j == 0 then [(0.0, 1.0)] else PointsUpTo(s, times, j - 1) + [(times[j - 1], Estimate(s, times, j))]
  }

  lemma {:induction false} PointsAt(s: seq<Subject>, times: seq<real>, j: nat)
    requires j <= |times|
    ensures |PointsUpTo(s, times, j)| == j + 1 && PointsUpTo(s, times, j)[0] == (0.0, 1.0)
    ensures forall i :: 0 <= i < j ==> PointsUpTo(s, times, j)[i + 1] == (times[i], Estimate(s, times, i + 1))
  {
    if j > 0 {
      PointsAt(s, times, j - 1);
    }
  }

  lemma FirstAtRisk(subjects: seq<Subject>, sorted: seq<Subject>, times: seq<real>)
    requires IsSortOf(sorted, subjects) && IsUnique(times, subjects)
    ensures |times| > 0 ==> |sorted| == AtRisk(subjects, times[0])
  {
    assert |multiset(sorted)| == |multiset(subjects)|;
    AllAtRiskFirst(subjects, times);
  }

  lemma AtTime(subjects: seq<Subject>, sorted: seq<Subject>, times: seq<real>, j: nat)
    requires IsSortOf(sorted, subjects) && IsUnique(times, subjects) && j < |times|
    ensures Exactly(sorted, times[j]) == Exactly(subjects, times[j]) <= AtRisk(subjects, times[j])
    ensures Deaths(sorted, times[j]) == Deaths(subjects, times[j])
    ensures j + 1 < |times| ==> AtRisk(subjects, times[j + 1]) == AtRisk(subjects, times[j]) - Exactly(sorted, times[j])
  {
    OrderIrrelevant(sorted, subjects, times[j]);
    RiskAfter(subjects, times, j);
  }

  /** The event total and the number of subjects whose duration is t. */
  method Masked(sorted: seq<Subject>, t: real) returns (d: real, m: nat)
    ensures m == Exactly(sorted, t) && d == Deaths(sorted, t)
  {
    d, m := 0.0, 0;
    for i := 0 to |sorted|
      invariant m == Exactly(sorted[..i], t) && d == Deaths(sorted[..i], t)
    {
      assert sorted[..i + 1][..i] == sorted[..i];
      if sorted[i].duration == t {
        d := d + sorted[i].event;
        m := m + 1;
      }
    }
    assert sorted[..|sorted|] == sorted;
  }

  /** median is the time of the first point at or below one half, if there is one. */
  ghost predicate IsMedian(points: seq<(real, real)>, median: Option<real>) {
    match median
    case None => forall i :: 0 <= i < |points| ==> points[i].1 > 0.5
    case Some(t) =>
      exists i :: 0 <= i < |points| && points[i].0 == t && points[i].1 <= 0.5 &&
        forall i' :: 0 <= i' < i ==> points[i'].1 > 0.5
  }

  method Median(points: seq<(real, real)>) returns (median: Option<real>)
    ensures IsMedian(points, median)
  {
    for i := 0 to |points|
      invariant forall i' :: 0 <= i' < i ==> points[i'].1 > 0.5
    {
      if points[i].1 <= 0.5 {
        return Some(points[i].0);
      }
    }
    return None;
  }

  method Scaled(survival: real, deaths: real, n: nat) returns (r: real)
    ensures r == Times(survival, Factor(deaths, n))
  {
    if n > 0 {
      r := survival * (1.0 - deaths / n as real);
    } else {
      r := survival;
    }
  }

  lemma AllAtRiskFirst(subjects: seq<Subject>, times: seq<real>)
    requires IsUnique(times, subjects)
    ensures |times| > 0 ==> AtRisk(subjects, times[0]) == |subjects|
  {
    if |times| > 0 {
      forall k | 0 <= k < |subjects|
        ensures subjects[k].duration >= times[0]
      {
        var i :| 0 <= i < |times| && times[i] == subjects[k].duration;
      }
      EveryoneAtRisk(subjects, times[0]);
    }
  }

  lemma RiskAfter(s: seq<Subject>, times: seq<real>, j: nat)
    requires IsUnique(times, s) && j < |times|
    ensures Exactly(s, times[j]) <= AtRisk(s, times[j])
    ensures j + 1 < |times| ==> AtRisk(s, times[j + 1]) == AtRisk(s, times[j]) - Exactly(s, times[j])
  {
    CountsSplit(s, times[j]);
    if j + 1 < |times| {
      NothingBetween(s, times, j);
      NextAtRisk(s, times[j], times[j + 1]);
    }
  }

  lemma NothingBetween(s: seq<Subject>, times: seq<real>, j: nat)
    requires IsUnique(times, s) && j + 1 < |times|
    ensures forall k :: 0 <= k < |s| ==> s[k].duration <= times[j] || s[k].duration >= times[j + 1]
  {
    forall k | 0 <= k < |s|
      ensures s[k].duration <= times[j] || s[k].duration >= times[j + 1]
    {
      var i :| 0 <= i < |times| && times[i] == s[k].duration;
      assert i <= j || i >= j + 1;
    }
  }

  // ---------------------------------------------------------------- properties of the estimate

  lemma FactorRange(d: real, c: nat, n: nat)
    requires 0.0 <= d <= c as real && c <= n && n > 0
    ensures 0.0 <= (n - c) as real / n as real <= Factor(d, n) <= 1.0
  {
    var r := n as real;
    assert (n - c) as real == r - c as real;
    QuotientTimes(d, r);
    QuotientTimes(r - c as real, r);
    OneLess(d / r, r);
    Cancel(1.0 - d / r, (r - c as real) / r, r);
    Cancel(1.0, 1.0 - d / r, r);
    Cancel((r - c as real) / r, 0.0, r);
  }

  lemma TimesRange(a: real, f: real)
    requires 0.0 <= a && 0.0 <= f <= 1.0
    ensures 0.0 <= Times(a, f) <= a
  {
  }

  lemma RiskFacts(s: seq<Subject>, times: seq<real>, j: nat)
    requires Indicators(s) && IsUnique(times, s) && j < |times|
    ensures 0 < AtRisk(s, times[j]) <= |s|
    ensures AtRisk(s, times[j]) == Exactly(s, times[j]) + Beyond(s, times[j])
    ensures 0.0 <= Deaths(s, times[j]) <= Exactly(s, times[j]) as real
  {
    var k :| 0 <= k < |s| && s[k].duration == times[j];
    SomeExactly(s, times[j], k);
    CountsSplit(s, times[j]);
    DeathsBounded(s, times[j]);
  }

  /** The curve stays in [0, 1] and never rises. */
  lemma {:induction false} EstimateFalls(s: seq<Subject>, times: seq<real>, j: nat)
    requires Indicators(s) && IsUnique(times, s) && j < |times|
    ensures 0.0 <= Estimate(s, times, j + 1) <= Estimate(s, times, j) <= 1.0
  {
    if j > 0 {
      EstimateFalls(s, times, j - 1);
    }
    RiskFacts(s, times, j);
    FactorRange(Deaths(s, times[j]), Exactly(s, times[j]), AtRisk(s, times[j]));
    TimesRange(Estimate(s, times, j), Factor(Deaths(s, times[j]), AtRisk(s, times[j])));
  }

  /** The places of the subjects still under observation just before t, and of those with an event at t. */
  ghost function Observed(s: seq<Subject>, t: real): set<nat> {
    set k: nat | k < |s| && s[k].duration >= t
  }

  ghost function Struck(s: seq<Subject>, t: real): set<nat> {
    set k: nat | k < |s| && s[k].duration == t && s[k].event == 1.0
  }

  lemma {:induction false} AtRiskIsSize(s: seq<Subject>, t: real)
    ensures AtRisk(s, t) == |Observed(s, t)|
  {
    if s != [] {
      var last := |s| - 1;
      var before, one := Observed(s[..last], t), if s[last].duration >= t then {last} else {};
      AtRiskIsSize(s[..last], t);
      assert Observed(s, t) == before + one && before !! one;
    }
  }

  lemma StruckGrows(s: seq<Subject>, t: real)
    requires s != []
    ensures var last := |s| - 1;
            |Struck(s, t)| == |Struck(s[..last], t)| +
              (if s[last].duration == t && s[last].event == 1.0 then 1 else 0)
  {
    var last := |s| - 1;
    var before, one := Struck(s[..last], t), if s[last].duration == t && s[last].event == 1.0 then {last} else {};
    assert Struck(s, t) == before + one && before !! one;
  }

  lemma {:induction false} DeathsAreSize(s: seq<Subject>, t: real)
    requires forall k :: 0 <= k < |s| ==> s[k].event == 0.0 || s[k].event == 1.0
    ensures Deaths(s, t) == |Struck(s, t)| as real
  {
    if s != [] {
      DeathsAreSize(s[..|s| - 1], t);
      StruckGrows(s, t);
    }
  }

  /** At each time the estimate is scaled by the part of those under observation that had no event; who
      is censored at that time counts as one of them, and censoring alone leaves the curve as it is. */
  lemma ProductLimit(s: seq<Subject>, times: seq<real>, j: nat)
    requires IsUnique(times, s) && j < |times|
    requires forall k :: 0 <= k < |s| ==> s[k].event == 0.0 || s[k].event == 1.0
    ensures var n, d := |Observed(s, times[j])|, |Struck(s, times[j])|;
            && d <= n && n > 0
            && Times(Estimate(s, times, j + 1), n as real) == Times(Estimate(s, times, j), (n - d) as real)
            && (d == 0 ==> Estimate(s, times, j + 1) == Estimate(s, times, j))
  {
    var t := times[j];
    AtRiskIsSize(s, t);
    DeathsAreSize(s, t);
    RiskFacts(s, times, j);
    Scaling(Estimate(s, times, j), |Struck(s, t)|, |Observed(s, t)|);
  }

  lemma Scaling(estimate: real, d: nat, n: nat)
    requires d <= n && n > 0
    ensures Times(Times(estimate, Factor(d as real, n)), n as real) == Times(estimate, (n - d) as real)
    ensures d == 0 ==> Factor(d as real, n) == 1.0
  {
    var r := n as real;
    QuotientTimes(d as real, r);
    OneLess(d as real / r, r);
    assert Factor(d as real, n) * r == (n - d) as real;
    assert Times(Times(estimate, Factor(d as real, n)), r) == Times(estimate, Factor(d as real, n) * r);
  }

  lemma {:induction false} EstimateOrder(s: seq<Subject>, times: seq<real>, i: nat, j: nat)
    requires Indicators(s) && IsUnique(times, s) && i <= j <= |times|
    ensures Estimate(s, times, j) <= Estimate(s, times, i)
    decreases j - i
  {
    if i < j {
      EstimateFalls(s, times, j - 1);
      EstimateOrder(s, times, i, j - 1);
    }
  }

  /** The median divides the times: the estimate is above one half before it and not from it on;
      without a median it is above one half throughout. */
  lemma MedianDivides(s: seq<Subject>, times: seq<real>, curve: Curve, j: nat)
    requires Indicators(s) && IsUnique(times, s) && j < |times| && |curve.points| == |times| + 1
    requires curve.points[0] == (0.0, 1.0) && IsMedian(curve.points, curve.median)
    requires forall k :: 0 <= k < |times| ==> curve.points[k + 1] == (times[k], Estimate(s, times, k + 1))
    ensures Estimate(s, times, j + 1) <= 0.5 <==> curve.median.Some? && times[j] >= curve.median.value
  {
    assert curve.points[j + 1].1 == Estimate(s, times, j + 1);
    if curve.median.Some? {
      var i :| 0 <= i < |curve.points| && curve.points[i].0 == curve.median.value && curve.points[i].1 <= 0.5 &&
        forall i' :: 0 <= i' < i ==> curve.points[i'].1 > 0.5;
      assert curve.points[i] == (times[i - 1], Estimate(s, times, i));
      if i - 1 <= j {
        EstimateOrder(s, times, i, j + 1);
        assert i - 1 == j || times[i - 1] < times[j];
      } else {
        assert times[j] < times[i - 1];
      }
    }
  }

  function Share(count: nat, n: nat): real
    requires n > 0
  {
    count as real / n as real
  }

  lemma Telescope(estimate: real, d: real, c: nat, atRisk: nat, n: nat)
    requires 0.0 <= d <= c as real && c <= atRisk <= n && atRisk > 0
    requires estimate >= Share(atRisk, n)
    ensures Times(estimate, Factor(d, atRisk)) >= Share(atRisk - c, n)
    ensures estimate == Share(atRisk, n) && d == c as real ==>
      Times(estimate, Factor(d, atRisk)) == Share(atRisk - c, n)
  {
    FactorRange(d, c, atRisk);
    KeepOrder(Share(atRisk, n), estimate, Factor(d, atRisk));
    SharesFall(d, c, atRisk, n);
  }

  lemma SharesFall(d: real, c: nat, atRisk: nat, n: nat)
    requires 0.0 <= d <= c as real && c <= atRisk <= n && atRisk > 0
    ensures Share(atRisk, n) * Factor(d, atRisk) >= Share(atRisk - c, n)
    ensures d == c as real ==> Share(atRisk, n) * Factor(d, atRisk) == Share(atRisk - c, n)
  {
    var r, N := atRisk as real, n as real;
    var f := Factor(d, atRisk);
    assert f * r == r - d by {
      QuotientTimes(d, r);
      OneLess(d / r, r);
    }
    assert Share(atRisk, n) * N == r && Share(atRisk - c, n) * N == r - c as real by {
      assert (atRisk - c) as real == r - c as real;
      QuotientTimes(r, N);
      QuotientTimes(r - c as real, N);
    }
    assert Share(atRisk, n) * f * N == r * f;
    Cancel(Share(atRisk, n) * f, Share(atRisk - c, n), N);
  }

  lemma FirstShare(n: nat)
    requires n > 0
    ensures Share(n, n) == 1.0
  {
  }

  ghost predicate UncensoredUntil(s: seq<Subject>, t: real) {
    forall k :: 0 <= k < |s| && s[k].duration <= t ==> s[k].event == 1.0
  }

  /** The estimate is never below the share of subjects seen to outlive t, and it is exactly
      that share when nobody was censored up to t. */
  lemma {:induction false} EstimateTelescopes(s: seq<Subject>, times: seq<real>, j: nat)
    requires Indicators(s) && IsUnique(times, s) && j < |times|
    ensures |s| > 0 && Estimate(s, times, j + 1) >= Share(Beyond(s, times[j]), |s|)
    ensures UncensoredUntil(s, times[j]) ==> Estimate(s, times, j + 1) == Share(Beyond(s, times[j]), |s|)
  {
    RiskFacts(s, times, j);
    if j == 0 {
      AllAtRiskFirst(s, times);
      FirstShare(|s|);
    } else {
      EstimateTelescopes(s, times, j - 1);
      NothingBetween(s, times, j - 1);
      NextAtRisk(s, times[j - 1], times[j]);
      assert UncensoredUntil(s, times[j]) ==> UncensoredUntil(s, times[j - 1]);
    }
    if UncensoredUntil(s, times[j]) {
      DeathsUncensored(s, times[j]);
    }
    Telescope(Estimate(s, times, j), Deaths(s, times[j]), Exactly(s, times[j]), AtRisk(s, times[j]), |s|);
  }

  // ---------------------------------------------------------------- the empirical distribution

  /** Values of the distribution function at the n sorted observations. */
  function Ecdf(n: nat): (values: seq<real>)
    ensures |values| == n
  {
    seq(n, i requires 0 <= i < n => (i + 1) as real / n as real)
  }

  lemma {:induction false} SortedBeyond(s: seq<Subject>, t: real, c: nat)
    requires c <= |s|
    requires forall k :: 0 <= k < |s| ==> (s[k].duration <= t <==> k < c)
    ensures Beyond(s, t) == |s| - c
  {
    if s != [] {
      SortedBeyond(s[..|s| - 1], t, if c == |s| then c - 1 else c);
    }
  }

  /** Without censoring the estimate at a time is one minus the empirical distribution
      function at the last copy of that time. */
  lemma UncensoredIsEcdf(subjects: seq<Subject>, sorted: seq<Subject>, times: seq<real>, j: nat, i: nat)
    requires IsSortOf(sorted, subjects) && IsUnique(times, subjects)
    requires forall k :: 0 <= k < |subjects| ==> subjects[k].event == 1.0
    requires j < |times| && i < |sorted| && sorted[i].duration == times[j]
    requires i + 1 < |sorted| ==> sorted[i + 1].duration > times[j]
    ensures Estimate(subjects, times, j + 1) == 1.0 - Ecdf(|sorted|)[i]
  {
    EstimateTelescopes(subjects, times, j);
    BeyondLastCopy(subjects, sorted, times[j], i);
    EcdfComplement(|sorted|, i, Beyond(subjects, times[j]), Share(Beyond(subjects, times[j]), |subjects|));
  }

  lemma EcdfComplement(n: nat, i: nat, beyond: nat, share: real)
    requires i < n && beyond == n - (i + 1) && share == Share(beyond, n)
    ensures share == 1.0 - Ecdf(n)[i]
  {
    Complement(n, i + 1);
  }

  lemma BeyondLastCopy(subjects: seq<Subject>, sorted: seq<Subject>, t: real, i: nat)
    requires IsSortOf(sorted, subjects) && i < |sorted| && sorted[i].duration == t
    requires i + 1 < |sorted| ==> sorted[i + 1].duration > t
    ensures |sorted| == |subjects| && Beyond(subjects, t) == |sorted| - (i + 1)
  {
    assert |multiset(sorted)| == |multiset(subjects)|;
    OrderIrrelevant(sorted, subjects, t);
    CountsSplit(sorted, t);
    CountsSplit(subjects, t);
    forall k | 0 <= k < |sorted|
      ensures sorted[k].duration <= t <==> k < i + 1
    {
      if k > i + 1 {
        assert sorted[i + 1].duration <= sorted[k].duration;
      }
    }
    SortedBeyond(sorted, t, i + 1);
  }

  lemma Complement(n: nat, c: nat)
    requires 0 < n && c <= n
    ensures Share(n - c, n) == 1.0 - c as real / n as real
  {
    var N := n as real;
    assert (n - c) as real == N - c as real;
    QuotientTimes(N - c as real, N);
    QuotientTimes(c as real, N);
    OneLess(c as real / N, N);
    Cancel(Share(n - c, n), 1.0 - c as real / N, N);
  }
}
