/** Nearest-rank percentiles of phase durations. */
module Percentile {
  import opened Prelude

  const WINDOW := 50                     // samples a baseline looks at
  const LEARNING_BELOW := 5

  predicate IsSorted(xs: seq<int>) {
    forall i, j :: 0 <= i < j < |xs| ==> xs[i] <= xs[j]
  }

  function Insert(x: int, xs: seq<int>): (r: seq<int>)
    ensures |r| == |xs| + 1
  {
    if xs == [] || x <= xs[0] then [x] + xs else [xs[0]] + Insert(x, xs[1..])
  }

  lemma {:induction false} InsertPermutes(x: int, xs: seq<int>)
    ensures multiset(Insert(x, xs)) == multiset(xs) + multiset{x}
  {
    if xs != [] && x > xs[0] {
      InsertPermutes(x, xs[1..]);
      assert xs == [xs[0]] + xs[1..];
    }
  }

  lemma {:induction false} InsertSorts(x: int, xs: seq<int>)
    requires IsSorted(xs)
    ensures IsSorted(Insert(x, xs))
    ensures forall i :: 0 <= i < |xs| + 1 ==> Insert(x, xs)[i] >= if xs == [] then x else MinInt(x, xs[0])
  {
    if xs != [] && x <= xs[0] {
      assert forall i :: 0 < i < |xs| + 1 ==> ([x] + xs)[i] == xs[i - 1];
    } else if xs != [] {
      InsertSorts(x, xs[1..]);
      var rest := Insert(x, xs[1..]);
      assert forall i :: 0 <= i < |rest| ==> rest[i] >= xs[0];
      assert forall i :: 0 < i < |xs| + 1 ==> Insert(x, xs)[i] == rest[i - 1];
    }
  }

  function Sorted(xs: seq<int>): (r: seq<int>)
    ensures |r| == |xs|
  {
    if xs == [] then [] else Insert(xs[0], Sorted(xs[1..]))
  }

  lemma {:induction false} SortedIsSorted(xs: seq<int>)
    ensures IsSorted(Sorted(xs)) && multiset(Sorted(xs)) == multiset(xs)
  {
    if xs != [] {
      SortedIsSorted(xs[1..]);
      InsertSorts(xs[0], Sorted(xs[1..]));
      InsertPermutes(xs[0], Sorted(xs[1..]));
      assert xs == [xs[0]] + xs[1..];
    }
  }

  /** ceil(p * n / 100) */
  function Rank(p: nat, n: nat): (k: nat)
    ensures 100 * k >= p * n && 100 * k < p * n + 100
  {
    (p * n + 99) / 100
  }

  function Nearest(values: seq<int>, p: nat): (r: Option<int>)
    ensures r.None? <==> values == []
  {
    if values == [] then None
    else
      var ordered := Sorted(values);
      Some(ordered[MaxInt(0, MinInt(|ordered| - 1, Rank(p, |ordered|) - 1))])
  }

  // ---------------------------------------------------------------- counting

  function AtMost(xs: seq<int>, v: int): (n: nat) {
    if xs == [] then 0 else AtMost(xs[..|xs| - 1], v) + (if xs[|xs| - 1] <= v then 1 else 0)
  }

  function Below(xs: seq<int>, v: int): (n: nat) {
    if xs == [] then 0 else Below(xs[..|xs| - 1], v) + (if xs[|xs| - 1] < v then 1 else 0)
  }

  lemma {:induction false} CountsAppend(xs: seq<int>, ys: seq<int>, v: int)
    ensures AtMost(xs + ys, v) == AtMost(xs, v) + AtMost(ys, v)
    ensures Below(xs + ys, v) == Below(xs, v) + Below(ys, v)
  {
    if ys == [] {
      assert xs + ys == xs;
    } else {
      var n := |ys| - 1;
      assert (xs + ys)[..|xs + ys| - 1] == xs + ys[..n];
      CountsAppend(xs, ys[..n], v);
    }
  }

  lemma {:induction false} InsertCounts(x: int, xs: seq<int>, v: int)
    requires IsSorted(xs)
    ensures AtMost(Insert(x, xs), v) == AtMost([x] + xs, v)
    ensures Below(Insert(x, xs), v) == Below([x] + xs, v)
  {
    if xs != [] && x > xs[0] {
      InsertCounts(x, xs[1..], v);
      CountsAppend([xs[0]], Insert(x, xs[1..]), v);
      CountsAppend([x], xs[1..], v);
      assert xs == [xs[0]] + xs[1..];
      CountsAppend([xs[0]], xs[1..], v);
      CountsAppend([x], xs, v);
    }
  }

  lemma {:induction false} SortedCounts(xs: seq<int>, v: int)
    ensures AtMost(Sorted(xs), v) == AtMost(xs, v)
    ensures Below(Sorted(xs), v) == Below(xs, v)
  {
    if xs != [] {
      SortedCounts(xs[1..], v);
      SortedIsSorted(xs[1..]);
      InsertCounts(xs[0], Sorted(xs[1..]), v);
      CountsAppend([xs[0]], Sorted(xs[1..]), v);
      CountsAppend([xs[0]], xs[1..], v);
      assert xs == [xs[0]] + xs[1..];
    }
  }

  lemma {:induction false} CountBounds(xs: seq<int>, v: int)
    ensures Below(xs, v) <= AtMost(xs, v) <= |xs|
  {
    if xs != [] { CountBounds(xs[..|xs| - 1], v); }
  }

  predicate AllAtMost(xs: seq<int>, v: int) { forall x :: x in xs ==> x <= v }

  predicate AllAtLeast(xs: seq<int>, v: int) { forall x :: x in xs ==> v <= x }

  lemma {:induction false} AllCounted(xs: seq<int>, v: int)
    ensures AllAtMost(xs, v) ==> AtMost(xs, v) == |xs|
    ensures AllAtLeast(xs, v) ==> Below(xs, v) == 0
  {
    if xs != [] {
      var front := xs[..|xs| - 1];
      AllCounted(front, v);
      assert xs[|xs| - 1] in xs && forall x :: x in front ==> x in xs;
      assert AllAtMost(xs, v) ==> AllAtMost(front, v);
      assert AllAtLeast(xs, v) ==> AllAtLeast(front, v);
    }
  }

  /** In a sorted list the k-th element has at least k+1 elements at or below it and at most k below. */
  lemma SortedRank(xs: seq<int>, k: nat)
    requires IsSorted(xs) && k < |xs|
    ensures AtMost(xs, xs[k]) >= k + 1 && Below(xs, xs[k]) <= k
  {
    var v := xs[k];
    assert AllAtMost(xs[..k + 1], v) && AllAtLeast(xs[k..], v);
    SplitCounts(xs, k + 1, v);
    SplitCounts(xs, k, v);
    AllCounted(xs[..k + 1], v);
    AllCounted(xs[k..], v);
    CountBounds(xs[..k], v);
  }

  lemma SplitCounts(xs: seq<int>, k: nat, v: int)
    requires k <= |xs|
    ensures AtMost(xs, v) == AtMost(xs[..k], v) + AtMost(xs[k..], v)
    ensures Below(xs, v) == Below(xs[..k], v) + Below(xs[k..], v)
  {
    assert xs == xs[..k] + xs[k..];
    CountsAppend(xs[..k], xs[k..], v);
  }

  /** `v` is a p-th nearest-rank percentile: a sample with enough samples at or below it and too few below. */
  predicate HasRank(values: seq<int>, p: nat, v: int) {
    v in values && AtMost(values, v) >= Rank(p, |values|) && Below(values, v) < Rank(p, |values|)
  }

  lemma RankInRange(p: nat, n: nat)
    requires 0 < p <= 100 && 0 < n
    ensures 1 <= Rank(p, n) <= n
  {
    assert 0 < p * n <= 100 * n;
  }

  lemma SameMembers(xs: seq<int>, ys: seq<int>, v: int)
    requires multiset(xs) == multiset(ys) && v in xs
    ensures v in ys && |xs| == |ys|
  {
    assert v in multiset(xs);
    assert |multiset(xs)| == |xs| && |multiset(ys)| == |ys|;
  }

  lemma NearestHasRank(values: seq<int>, p: nat)
    requires values != [] && 0 < p <= 100
    ensures HasRank(values, p, Nearest(values, p).value)
  {
    var ordered := Sorted(values);
    SortedIsSorted(values);
    RankInRange(p, |values|);
    var k := Rank(p, |values|) - 1;
    SortedRank(ordered, k);
    SortedCounts(values, ordered[k]);
    SameMembers(ordered, values, ordered[k]);
  }

  lemma {:induction false} CountsMonotone(xs: seq<int>, u: int, v: int)
    requires u < v
    ensures AtMost(xs, u) <= Below(xs, v)
  {
    if xs != [] { CountsMonotone(xs[..|xs| - 1], u, v); }
  }

  lemma RankMonotone(p: nat, q: nat, n: nat)
    requires p <= q
    ensures Rank(p, n) <= Rank(q, n)
  {
    assert p * n <= q * n;
  }

  /** The rank property determines the sample, and a higher percentage never gives a smaller one. */
  lemma RankDetermines(values: seq<int>, p: nat, q: nat, u: int, v: int)
    requires p <= q && HasRank(values, p, u) && HasRank(values, q, v)
    ensures u <= v
    ensures p == q ==> u == v
  {
    RankMonotone(p, q, |values|);
    if v < u { CountsMonotone(values, v, u); }
    if u < v { CountsMonotone(values, u, v); }
  }

  lemma RemoveOne(ys: seq<int>, k: nat, v: int)
    requires k < |ys|
    ensures var rest := ys[..k] + ys[k + 1..];
      && multiset(rest) == multiset(ys) - multiset{ys[k]}
      && AtMost(ys, v) == AtMost(rest, v) + AtMost([ys[k]], v)
      && Below(ys, v) == Below(rest, v) + Below([ys[k]], v)
  {
    assert ys == ys[..k] + ([ys[k]] + ys[k + 1..]);
    CountsAppend(ys[..k], [ys[k]] + ys[k + 1..], v);
    CountsAppend([ys[k]], ys[k + 1..], v);
    CountsAppend(ys[..k], ys[k + 1..], v);
  }

  lemma {:induction false} CountsOfPermutation(xs: seq<int>, ys: seq<int>, v: int)
    requires multiset(xs) == multiset(ys)
    ensures AtMost(xs, v) == AtMost(ys, v) && Below(xs, v) == Below(ys, v)
    decreases |xs|
  {
    if xs == [] {
      assert |multiset(ys)| == |ys|;
    } else {
      var x := xs[0];
      SameMembers(xs, ys, x);
      var k :| 0 <= k < |ys| && ys[k] == x;
      RemoveOne(xs, 0, v);
      RemoveOne(ys, k, v);
      CountsOfPermutation(xs[..0] + xs[1..], ys[..k] + ys[k + 1..], v);
    }
  }

  /** The order of the samples does not matter. */
  lemma NearestIgnoresOrder(xs: seq<int>, ys: seq<int>, p: nat)
    requires multiset(xs) == multiset(ys) && 0 < p <= 100
    ensures Nearest(xs, p) == Nearest(ys, p)
  {
    if xs == [] {
      assert |multiset(ys)| == |ys|;
    } else {
      SameMembers(xs, ys, xs[0]);
      NearestHasRank(xs, p);
      NearestHasRank(ys, p);
      var v := Nearest(ys, p).value;
      CountsOfPermutation(xs, ys, v);
      SameMembers(ys, xs, v);
      RankDetermines(xs, p, p, Nearest(xs, p).value, v);
    }
  }

  // ---------------------------------------------------------------- one baseline

  datatype Sample = Sample(done: bool, duration: Option<int>)     // newest first; not done means failed

  datatype Baseline = Baseline(
    sampleCount: nat, p50: Option<int>, p90: Option<int>, p95: Option<int>, failures: nat, outOf: nat, learning: bool)

  /** Durations of the done samples that have one, in the order given. */
  function Successes(items: seq<Sample>): (ds: seq<int>)
    ensures |ds| <= |items|
  {
    if items == [] then []
    else
      var before := Successes(items[..|items| - 1]);
      var last := items[|items| - 1];
      if last.done && last.duration.Some? then before + [last.duration.value] else before
  }

  function Failures(items: seq<Sample>): (n: nat)
    ensures n <= |items|
  {
    if items == [] then 0 else Failures(items[..|items| - 1]) + (if items[|items| - 1].done then 0 else 1)
  }

  /** The newest ones, as many as there are up to the limit. */
  function Take<T>(xs: seq<T>, n: nat): (r: seq<T>)
    ensures r <= xs && |r| == if n < |xs| then n else |xs|
  {
    if n < |xs| then xs[..n] else xs
  }

  /** Every done sample with a duration is kept, in its place among the others, and nothing else. */
  lemma {:induction false} SuccessesInOrder(items: seq<Sample>, i: nat)
    requires i < |items|
    ensures |Successes(items)| == |set k | 0 <= k < |items| && items[k].done && items[k].duration.Some?|
    ensures items[i].done && items[i].duration.Some? ==>
      && |Successes(items[..i])| < |Successes(items)|
      && Successes(items)[|Successes(items[..i])|] == items[i].duration.value
  {
    var n := |items| - 1;
    var here := set k | 0 <= k < |items| && items[k].done && items[k].duration.Some?;
    var front := items[..n];
    var before := set k | 0 <= k < n && front[k].done && front[k].duration.Some?;
    if n > 0 { SuccessesInOrder(front, if i < n then i else 0); }
    assert here == if items[n].done && items[n].duration.Some? then before + {n} else before;
    if i < n { assert front[..i] == items[..i]; }
  }

  lemma {:induction false} FailuresAreCounted(items: seq<Sample>)
    ensures Failures(items) == |set k | 0 <= k < |items| && !items[k].done|
  {
    if items != [] {
      var n := |items| - 1;
      var front := items[..n];
      FailuresAreCounted(front);
      var before := set k | 0 <= k < n && !front[k].done;
      assert (set k | 0 <= k < |items| && !items[k].done) == if items[n].done then before else before + {n};
    }
  }

  /** One group of `recompute_baselines`. The percentiles are ordered, they describe the newest successes
      only, and the failure rate `failures / outOf` lies between 0 and 1. */
  method ComputeBaseline(items: seq<Sample>) returns (b: Baseline)
    ensures var newest := Take(Successes(items), 50);
      && b.sampleCount == |newest| <= 50
      && (newest == [] <==> b.p50.None?) && (newest == [] <==> b.p90.None?) && (newest == [] <==> b.p95.None?)
      && (newest != [] ==>
           HasRank(newest, 50, b.p50.value) && HasRank(newest, 90, b.p90.value) && HasRank(newest, 95, b.p95.value) &&
           b.p50.value <= b.p90.value <= b.p95.value)
    ensures b.failures == Failures(Take(items, 50)) && b.failures <= b.outOf <= 50 && b.outOf > 0
    ensures items != [] ==> b.outOf == |Take(items, 50)|
    ensures b.learning <==> b.sampleCount < 5
  {
    var ds, failed := [], 0;
    var i := 0;
    assert items[..0] == [];
    while i < |items|
      invariant 0 <= i <= |items|
      invariant ds == Successes(items[..i])
      invariant failed == Failures(items[..MinInt(i, WINDOW)])
    {
      assert items[..i + 1][..i] == items[..i];
      if items[i].done && items[i].duration.Some? {
        ds := ds + [items[i].duration.value];
      }
      if i < WINDOW && !items[i].done {
        failed := failed + 1;
      }
      i := i + 1;
    }
    assert items[..|items|] == items;
    var newest := Take(ds, WINDOW);
    b := Baseline(|newest|, Nearest(newest, 50), Nearest(newest, 90), Nearest(newest, 95), failed,
                  MaxInt(1, MinInt(WINDOW, |items|)), |newest| < LEARNING_BELOW);
    if newest != [] {
      NearestHasRank(newest, 50);
      NearestHasRank(newest, 90);
      NearestHasRank(newest, 95);
      RankDetermines(newest, 50, 90, b.p50.value, b.p90.value);
      RankDetermines(newest, 90, 95, b.p90.value, b.p95.value);
    }
  }
}
