/** Latency statistics of a probe: nearest-rank percentiles over the durations of successful calls. */
module LatencyStats {
  import opened Numbers

  predicate Sorted(xs: seq<real>) {
    forall i, j | 0 <= i <= j < |xs| :: xs[i] <= xs[j]
  }

  function Insert(xs: seq<real>, x: real): (r: seq<real>)
    requires Sorted(xs)
    ensures Sorted(r) && |r| == |xs| + 1 && forall y | y in r :: y == x || y in xs
  {
    if xs == [] || xs[|xs| - 1] <= x then xs + [x]
    else
      var init, last := xs[..|xs| - 1], xs[|xs| - 1];
      var r := Insert(init, x);
      assert forall i | 0 <= i < |r| :: r[i] in r && r[i] <= last;
      r + [last]
  }

  function Sort(xs: seq<real>): (r: seq<real>)
    ensures Sorted(r) && |r| == |xs|
  {
    if xs == [] then [] else Insert(Sort(xs[..|xs| - 1]), xs[|xs| - 1])
  }

  /** How many of the samples are at most `v`. */
  function AtMost(xs: seq<real>, v: real): (n: nat)
    ensures n <= |xs|
  {
    if xs == [] then 0 else AtMost(xs[..|xs| - 1], v) + (if xs[|xs| - 1] <= v then 1 else 0)
  }

  lemma {:induction false} InsertCounts(xs: seq<real>, x: real, v: real)
    requires Sorted(xs)
    ensures AtMost(Insert(xs, x), v) == AtMost(xs, v) + if x <= v then 1 else 0
  {
    var r := Insert(xs, x);
    if xs == [] || xs[|xs| - 1] <= x {
      assert r[..|r| - 1] == xs;
    } else {
      assert r[..|r| - 1] == Insert(xs[..|xs| - 1], x);
      InsertCounts(xs[..|xs| - 1], x, v);
    }
  }

  lemma {:induction false} SortCounts(xs: seq<real>, v: real)
    ensures AtMost(Sort(xs), v) == AtMost(xs, v)
  {
    if xs != [] {
      SortCounts(xs[..|xs| - 1], v);
      InsertCounts(Sort(xs[..|xs| - 1]), xs[|xs| - 1], v);
    }
  }

  /** The fraction `p` of `n`. */
  function Share(p: real, n: nat): real {
    p * n as real
  }

  function Index(n: nat, p: real): int {
    var rank := Ceil(Share(p, n)) - 1;
    var low := if rank < 0 then 0 else rank;
    if low < n - 1 then low else n - 1
  }

  function Percentile(sorted: seq<real>, p: real): real {
    if sorted == [] then 0.0 else sorted[Index(|sorted|, p)]
  }

  lemma {:induction false} SortedPrefixCounts(xs: seq<real>, i: nat, v: real)
    requires Sorted(xs) && i < |xs|
    ensures xs[i] <= v ==> AtMost(xs, v) >= i + 1
    ensures v < xs[i] ==> AtMost(xs, v) <= i
  {
    var n := |xs| - 1;
    if i < n {
      SortedPrefixCounts(xs[..n], i, v);
    } else if xs[n] <= v {
      AllAtMost(xs, v);
    }
  }

  lemma {:induction false} AllAtMost(xs: seq<real>, v: real)
    requires forall i | 0 <= i < |xs| :: xs[i] <= v
    ensures AtMost(xs, v) == |xs|
  {
    if xs != [] {
      AllAtMost(xs[..|xs| - 1], v);
    }
  }

  lemma RankBounds(n: nat, p: real)
    requires n > 0 && 0.0 < p <= 1.0
    ensures 0 <= Index(n, p) < n
    ensures Index(n, p) as real < Share(p, n) <= Index(n, p) as real + 1.0
  {
    ShareBounds(n, p);
  }

  lemma ShareBounds(n: nat, p: real)
    requires n > 0 && 0.0 < p <= 1.0
    ensures 0.0 < Share(p, n) <= n as real
  {
    var m := n as real;
    assert (1.0 - p) * m >= 0.0;
    assert (1.0 - p) * m == m - p * m;
  }

  lemma ShareGrows(n: nat, p: real, q: real)
    requires p <= q
    ensures Share(p, n) <= Share(q, n)
  {
    var m := n as real;
    assert (q - p) * m >= 0.0;
    assert (q - p) * m == q * m - p * m;
  }

  /** The nearest-rank percentile of any samples: at least the fraction `p` of them lie at or below it, and
      below any smaller value lie fewer. */
  lemma PercentileMeaning(samples: seq<real>, p: real, v: real)
    requires samples != [] && 0.0 < p <= 1.0
    ensures var value := Percentile(Sort(samples), p);
      && Share(p, |samples|) <= AtMost(samples, value) as real
      && (v < value ==> AtMost(samples, v) as real < Share(p, |samples|))
  {
    var sorted, value := Sort(samples), Percentile(Sort(samples), p);
    RankBounds(|samples|, p);
    var i := Index(|samples|, p);
    SortedPrefixCounts(sorted, i, value);
    SortedPrefixCounts(sorted, i, v);
    SortCounts(samples, value);
    SortCounts(samples, v);
  }

  lemma RankGrows(n: nat, p: real, q: real)
    requires n > 0 && p <= q
    ensures 0 <= Index(n, p) <= Index(n, q) < n
  {
    ShareGrows(n, p, q);
  }

  /** Percentiles are ordered and lie between the least and the greatest sample. */
  lemma PercentilesAreOrdered(samples: seq<real>, p: real, q: real)
    requires samples != [] && p <= q
    ensures var s := Sort(samples); s[0] <= Percentile(s, p) <= Percentile(s, q) <= s[|s| - 1]
  {
    RankGrows(|samples|, p, q);
  }
}
