/** Benjamini-Hochberg step-up adjustment over the reals, and the family of comparisons it decides. */
module StepUp {
  import opened Prelude

  function Lesser(a: real, b: real): real {
    if a <= b then a else b
  }

  /** `order` lists the indices of `p` in ascending order of value; ties in any order. */
  ghost predicate Sorting(p: seq<real>, order: seq<nat>) {
    && |order| == |p|
    && (forall r :: 0 <= r < |order| ==> order[r] < |p|)
    && (forall i :: 0 <= i < |p| ==> i in order)
    && (forall r, s :: 0 <= r < s < |order| ==> order[r] != order[s] && p[order[r]] <= p[order[s]])
  }

  /** `x * m / n` */
  function Scale(x: real, m: nat, n: nat): real
    requires n > 0
  {
    x * m as real / n as real
  }

  lemma ScaleByMore(x: real, m: nat, a: nat, b: nat)
    requires x >= 0.0 && 0 < a <= b
    ensures Scale(x, m, b) <= Scale(x, m, a)
  {
    DivideByMore(x * m as real, a, b);
  }

  lemma DivideByMore(z: real, a: nat, b: nat)
    requires z >= 0.0 && 0 < a <= b
    ensures z / b as real <= z / a as real
  {
    var u, w := z / a as real, z / b as real;
    assert u >= 0.0 && u * a as real == z && w * b as real == z;
    MulNat(u, a, b);
    if u < w { MulLess(u, w, b); }
  }

  lemma MulLess(u: real, w: real, c: nat)
    requires u < w && c > 0
    ensures u * c as real < w * c as real
  {
  }

  lemma MulNat(u: real, a: nat, b: nat)
    requires a <= b && u >= 0.0
    ensures u * a as real <= u * b as real
  {
  }

  lemma ScaleBySame(x: real, m: nat)
    requires m > 0
    ensures Scale(x, m, m) == x
  {
  }

  /** The raw value at 0-based rank `r`: `p * m / rank` with the rank counted from one. */
  function Scaled(p: seq<real>, order: seq<nat>, r: nat): real
    requires r < |order| && order[r] < |p|
  {
    Scale(p[order[r]], |p|, r + 1)
  }

  /** The running minimum when the downward walk has reached rank `r`. */
  function Walk(p: seq<real>, order: seq<nat>, r: nat): real
    requires r <= |order| && forall s :: r <= s < |order| ==> order[s] < |p|
    decreases |order| - r
  {
    if r == |order| then 1.0 else Lesser(Walk(p, order, r + 1), Scaled(p, order, r))
  }

  /** `sorted(range(m), key=...)` */
  method SortIndices(p: seq<real>) returns (order: seq<nat>)
    ensures Sorting(p, order)
  {
    order := [];
    for n := 0 to |p|
      invariant Sorting(p[..n], order)
    {
      var i := FindPlace(p, order, n);
      InsertKeepsSorting(p, order, n, i);
      hide Sorting;
      order := order[..i] + [n] + order[i..];
    }
    assert p[..|p|] == p;
  }

  /** Where index `n` belongs among the sorted indices below it: after its equals. */
  method FindPlace(p: seq<real>, order: seq<nat>, n: nat) returns (i: nat)
    requires n < |p| && Sorting(p[..n], order)
    ensures i <= n && (forall r :: i <= r < n ==> p[order[r]] > p[n]) && (i > 0 ==> p[order[i - 1]] <= p[n])
  {
    i := n;
    while i > 0 && p[order[i - 1]] > p[n]
      invariant 0 <= i <= n
      invariant forall r :: i <= r < n ==> p[order[r]] > p[n]
    {
      i := i - 1;
    }
  }

  function Inserted(order: seq<nat>, n: nat, i: nat): (t: seq<nat>)
    requires i <= |order|
    ensures |t| == |order| + 1
    ensures forall r :: 0 <= r < |t| ==> t[r] == if r < i then order[r] else if r == i then n else order[r - 1]
  {
    order[..i] + [n] + order[i..]
  }

  lemma InsertKeepsSorting(p: seq<real>, order: seq<nat>, n: nat, i: nat)
    requires n < |p| && Sorting(p[..n], order) && i <= n
    requires forall r :: i <= r < n ==> p[order[r]] > p[n]
    requires i > 0 ==> p[order[i - 1]] <= p[n]
    ensures Sorting(p[..n + 1], Inserted(order, n, i))
  {
    InsertKeepsAll(p, order, n, i);
    InsertKeepsOrder(p, order, n, i);
    hide Inserted;
  }

  lemma InsertKeepsAll(p: seq<real>, order: seq<nat>, n: nat, i: nat)
    requires n < |p| && Sorting(p[..n], order) && i <= n
    ensures forall k :: 0 <= k <= n ==> k in Inserted(order, n, i)
  {
    hide Inserted;
    forall k | 0 <= k <= n
      ensures k in Inserted(order, n, i)
    {
      assert k < n ==> k in order;
      InsertedHolds(order, n, i, k);
    }
  }

  lemma InsertedHolds(order: seq<nat>, n: nat, i: nat, k: nat)
    requires i <= |order| && (k in order || k == n)
    ensures k in Inserted(order, n, i)
  {
    var t := Inserted(order, n, i);
    if k == n {
      assert t[i] == k;
    } else {
      var r :| 0 <= r < |order| && order[r] == k;
      assert t[if r < i then r else r + 1] == k;
    }
  }

  lemma InsertKeepsOrder(p: seq<real>, order: seq<nat>, n: nat, i: nat)
    requires n < |p| && Sorting(p[..n], order) && i <= n
    requires forall r :: i <= r < n ==> p[order[r]] > p[n]
    requires i > 0 ==> p[order[i - 1]] <= p[n]
    ensures var t := Inserted(order, n, i);
      forall r, s :: 0 <= r < s <= n ==> t[r] <= n && t[s] <= n && t[r] != t[s] && p[t[r]] <= p[t[s]]
  {
    var t := Inserted(order, n, i);
    SortedPairs(p, order, n);
    hide Sorting, Inserted;
    forall r, s | 0 <= r < s <= n
      ensures t[r] <= n && t[s] <= n && t[r] != t[s] && p[t[r]] <= p[t[s]]
    {
      if s == i && r < i - 1 {
        assert p[order[r]] <= p[order[i - 1]];
      }
    }
  }

  lemma SortedPairs(p: seq<real>, order: seq<nat>, n: nat)
    requires n < |p| && Sorting(p[..n], order)
    ensures |order| == n && forall r :: 0 <= r < n ==> order[r] < n
    ensures forall r, s :: 0 <= r < s < n ==> order[r] != order[s] && p[order[r]] <= p[order[s]]
  {
    forall r, s | 0 <= r < s < n
      ensures order[r] != order[s] && p[order[r]] <= p[order[s]]
    {
      assert p[..n][order[r]] <= p[..n][order[s]];
    }
  }

  lemma WalkEnd(p: seq<real>, order: seq<nat>)
    ensures Walk(p, order, |order|) == 1.0
  {
  }

  lemma WalkStep(p: seq<real>, order: seq<nat>, r: nat)
    requires Sorting(p, order) && r < |order|
    ensures Walk(p, order, r) == Lesser(Walk(p, order, r + 1), Scale(p[order[r]], |p|, r + 1))
    ensures Walk(p, order, r) == Lesser(1.0, Walk(p, order, r))
  {
    WalkAtMostOne(p, order, r);
    hide Scale;
  }

  /** The walk from the largest p-value down, with its running minimum. */
  method WalkDown(p: seq<real>, order: seq<nat>) returns (adjusted: array<real>)
    requires Sorting(p, order)
    ensures fresh(adjusted) && adjusted.Length == |p|
    ensures forall r :: 0 <= r < |p| ==> adjusted[r] == Walk(p, order, r)
  {
    hide Scale, Walk, Lesser;
    var m := |p|;
    WalkEnd(p, order);
    adjusted := new real[m];
    var runningMin := 1.0;
    var rank := m;
    while rank > 0
      invariant 0 <= rank <= m
      invariant runningMin == Walk(p, order, rank)
      invariant forall r :: rank <= r < m ==> adjusted[r] == Walk(p, order, r)
    {
      var raw := Scale(p[order[rank - 1]], m, rank);
      runningMin := Lesser(runningMin, raw);
      WalkStep(p, order, rank - 1);
      adjusted[rank - 1] := Lesser(1.0, runningMin);
      rank := rank - 1;
    }
  }

  /** Every index is written once: its rank is the only one that names it. */
  method Scatter(adjusted: array<real>, order: seq<nat>) returns (out: array<real>)
    requires |order| == adjusted.Length
    requires forall r :: 0 <= r < |order| ==> order[r] < |order|
    requires forall r, s :: 0 <= r < s < |order| ==> order[r] != order[s]
    ensures fresh(out) && out.Length == |order|
    ensures forall r :: 0 <= r < |order| ==> out[order[r]] == adjusted[r]
  {
    out := new real[|order|];
    for r := 0 to |order|
      invariant forall s :: 0 <= s < r ==> out[order[s]] == adjusted[s]
    {
      out[order[r]] := adjusted[r];
    }
  }

  /** `benjamini_hochberg`: the walk's values, scattered back to input order. */
  method BenjaminiHochberg(p: seq<real>) returns (result: seq<real>, ghost order: seq<nat>)
    ensures Sorting(p, order) && |result| == |p|
    ensures forall r :: 0 <= r < |order| ==> result[order[r]] == Walk(p, order, r)
    ensures PValues(p) ==> forall i :: 0 <= i < |p| ==> IsAdjusted(p, i, result[i])
  {
    if p == [] { return [], []; }
    var sorted := SortIndices(p);
    var adjusted := WalkDown(p, sorted);
    var out := Scatter(adjusted, sorted);
    result, order := out[..], sorted;
    if PValues(p) { AllAdjusted(p, order, result); }
    hide *;
  }

  lemma AllAdjusted(p: seq<real>, order: seq<nat>, result: seq<real>)
    requires Sorting(p, order) && PValues(p) && |result| == |p|
    requires forall r :: 0 <= r < |order| ==> result[order[r]] == Walk(p, order, r)
    ensures forall i :: 0 <= i < |p| ==> IsAdjusted(p, i, result[i])
  {
    hide Walk, IsAdjusted;
    forall i | 0 <= i < |p|
      ensures IsAdjusted(p, i, result[i])
    {
      assert i in order;
      var r :| 0 <= r < |order| && order[r] == i;
      WalkIsAdjusted(p, order, r);
    }
  }

  lemma {:induction false} WalkAtMostOne(p: seq<real>, order: seq<nat>, r: nat)
    requires Sorting(p, order) && r <= |order|
    ensures Walk(p, order, r) <= 1.0
    decreases |order| - r
  {
    if r < |order| { WalkAtMostOne(p, order, r + 1); }
  }

  /** The walk's value is the least of 1 and the scaled values from rank `r` up. */
  lemma {:induction false} WalkIsLeast(p: seq<real>, order: seq<nat>, r: nat)
    requires Sorting(p, order) && r <= |order|
    ensures forall s :: r <= s < |order| ==> Walk(p, order, r) <= Scaled(p, order, s)
    ensures Walk(p, order, r) <= 1.0
    ensures Walk(p, order, r) == 1.0 || exists s :: r <= s < |order| && Walk(p, order, r) == Scaled(p, order, s)
    decreases |order| - r
  {
    if r < |order| {
      WalkIsLeast(p, order, r + 1);
      var w := Walk(p, order, r + 1);
      if w != 1.0 && w <= Scaled(p, order, r) {
        var s :| r + 1 <= s < |order| && w == Scaled(p, order, s);
      }
    }
  }

  // ---------- what the adjustment means, without any order ----------

  ghost function AtMost(p: seq<real>, v: real): set<nat> {
    set k: nat | k < |p| && p[k] <= v
  }

  /** `m * p_k` over the number of p-values at most `p_k`. */
  ghost function Candidate(p: seq<real>, k: nat): (c: real)
    requires k < |p|
    ensures c * |AtMost(p, p[k])| as real == p[k] * |p| as real
  {
    InOwnRank(p, k);
    ScaleTimes(p[k], |p|, |AtMost(p, p[k])|);
    Scale(p[k], |p|, |AtMost(p, p[k])|)
  }

  lemma ScaleTimes(x: real, m: nat, n: nat)
    requires n > 0
    ensures Scale(x, m, n) * n as real == x * m as real
  {
  }

  lemma InOwnRank(p: seq<real>, k: nat)
    requires k < |p|
    ensures |AtMost(p, p[k])| > 0
  {
    assert k in AtMost(p, p[k]);
  }

  /** `a` is the least of 1 and the candidates of the p-values that are no smaller than `p[i]`. */
  ghost predicate IsAdjusted(p: seq<real>, i: nat, a: real)
    requires i < |p|
  {
    && a <= 1.0
    && (forall k :: 0 <= k < |p| && p[k] >= p[i] ==> a <= Candidate(p, k))
    && (a == 1.0 || exists k :: 0 <= k < |p| && p[k] >= p[i] && a == Candidate(p, k))
  }

  ghost predicate PValues(p: seq<real>) {
    forall i :: 0 <= i < |p| ==> 0.0 <= p[i] <= 1.0
  }

  ghost function Firsts(order: seq<nat>, n: nat): set<nat>
    requires n <= |order|
  {
    set r | 0 <= r < n :: order[r]
  }

  lemma {:induction false} FirstsSize(p: seq<real>, order: seq<nat>, n: nat)
    requires Sorting(p, order) && n <= |order|
    ensures |Firsts(order, n)| == n
  {
    if n > 0 {
      FirstsSize(p, order, n - 1);
      assert Firsts(order, n) == Firsts(order, n - 1) + {order[n - 1]};
      assert order[n - 1] !in Firsts(order, n - 1);
    }
  }

  /** How many are at most `v` is where the sorted order passes `v`. */
  lemma RankOf(p: seq<real>, order: seq<nat>, v: real)
    requires Sorting(p, order)
    ensures |AtMost(p, v)| <= |order|
    ensures forall t :: 0 <= t < |order| ==> (t < |AtMost(p, v)| <==> p[order[t]] <= v)
  {
    var n := 0;
    while n < |order| && p[order[n]] <= v
      invariant 0 <= n <= |order| && forall t :: 0 <= t < n ==> p[order[t]] <= v
    {
      n := n + 1;
    }
    forall t | n <= t < |order|
      ensures p[order[t]] > v
    {
      assert p[order[n]] <= p[order[t]];
    }
    forall k
      ensures k in AtMost(p, v) <==> k in Firsts(order, n)
    {
      if k in AtMost(p, v) {
        assert k in order;
        var t :| 0 <= t < |order| && order[t] == k;
      }
    }
    assert AtMost(p, v) == Firsts(order, n);
    FirstsSize(p, order, n);
  }

  /** The last rank of a group of ties scales to the group's candidate; earlier ones to no less. */
  lemma TieGroup(p: seq<real>, order: seq<nat>, k: nat)
    requires Sorting(p, order) && PValues(p) && k < |p|
    ensures var s := |AtMost(p, p[k])| - 1;
      0 <= s < |order| && Scaled(p, order, s) == Candidate(p, k)
    ensures forall r :: 0 <= r < |order| && p[order[r]] <= p[k] ==> r < |AtMost(p, p[k])|
    ensures forall r :: 0 <= r < |order| && order[r] == k ==> Candidate(p, k) <= Scaled(p, order, r)
  {
    hide Scale;
    InOwnRank(p, k);
    RankOf(p, order, p[k]);
    var s := |AtMost(p, p[k])| - 1;
    assert k in order;
    var t :| 0 <= t < |order| && order[t] == k;
    assert t <= s;
    assert p[order[s]] == p[k];
    forall r | 0 <= r < |order| && order[r] == k
      ensures Candidate(p, k) <= Scaled(p, order, r)
    {
      ScaleByMore(p[k], |p|, r + 1, s + 1);
    }
  }

  /** The walk computes exactly the order-free adjustment. */
  lemma WalkIsAdjusted(p: seq<real>, order: seq<nat>, r: nat)
    requires Sorting(p, order) && PValues(p) && r < |order|
    ensures IsAdjusted(p, order[r], Walk(p, order, r))
  {
    var i, a := order[r], Walk(p, order, r);
    WalkIsLeast(p, order, r);
    forall k | 0 <= k < |p| && p[k] >= p[i]
      ensures a <= Candidate(p, k)
    {
      TieGroup(p, order, k);
    }
    if a != 1.0 {
      var s :| r <= s < |order| && a == Scaled(p, order, s);
      TieGroup(p, order, order[s]);
      assert p[order[s]] >= p[i];
      assert a == Candidate(p, order[s]);
    }
  }

  /** No other value meets the description: whichever order the sort picks, the result is the same. */
  lemma AdjustedIsUnique(p: seq<real>, i: nat, a: real, b: real)
    requires i < |p| && IsAdjusted(p, i, a) && IsAdjusted(p, i, b)
    ensures a == b
  {
  }

  /** Tied p-values, in particular, are adjusted alike, and a smaller one never above a larger one. */
  lemma AdjustedIsMonotone(p: seq<real>, i: nat, j: nat, a: real, b: real)
    requires i < |p| && j < |p| && p[i] <= p[j] && IsAdjusted(p, i, a) && IsAdjusted(p, j, b)
    ensures a <= b
    ensures p[i] == p[j] ==> a == b
  {
  }

  lemma AtMostAll(p: seq<real>, v: real)
    ensures |AtMost(p, v)| <= |p|
  {
    UpToHolds(|p|);
    SubsetSize(AtMost(p, v), UpTo(|p|));
  }

  ghost function UpTo(n: nat): set<nat> {
    if n == 0 then {} else UpTo(n - 1) + {n - 1}
  }

  lemma {:induction false} UpToHolds(n: nat)
    ensures |UpTo(n)| == n && forall k: nat :: k in UpTo(n) <==> k < n
  {
    if n > 0 { UpToHolds(n - 1); }
  }

  /** Adjusting never lowers a p-value. */
  lemma AdjustedIsAtLeastRaw(p: seq<real>, i: nat, a: real)
    requires PValues(p) && i < |p| && IsAdjusted(p, i, a)
    ensures p[i] <= a
  {
    hide Scale;
    if a != 1.0 {
      var k :| 0 <= k < |p| && p[k] >= p[i] && a == Candidate(p, k);
      AtMostAll(p, p[k]);
      InOwnRank(p, k);
      ScaleByMore(p[k], |p|, |AtMost(p, p[k])|, |p|);
      ScaleBySame(p[k], |p|);
    }
  }

  /** Below a level of at most 1 exactly when some p-value at least as large meets its own step-up bound. */
  lemma BelowLevel(p: seq<real>, i: nat, a: real, q: real)
    requires i < |p| && IsAdjusted(p, i, a) && q <= 1.0
    ensures a < q <==> exists k :: 0 <= k < |p| && p[k] >= p[i] && Candidate(p, k) < q
  {
    if a < q {
      var k :| 0 <= k < |p| && p[k] >= p[i] && a == Candidate(p, k);
    }
  }

  // ---------- the confirmatory family ----------

  /** One adapter pair: its means and its raw p-value. */
  datatype Comparison = Comparison(adapterA: string, adapterB: string, meanA: real, meanB: real, pValue: real)
  datatype Marked = Marked(pAdjusted: real, significant: bool, winner: string)

  ghost function RawValues(cs: seq<Comparison>): seq<real> {
    seq(|cs|, i requires 0 <= i < |cs| => cs[i].pValue)
  }

  /** A comparison is marked on its own means and on the p-values of the whole family, and on nothing else. */
  ghost predicate IsMarked(cs: seq<Comparison>, q: real, i: nat, m: Marked)
    requires i < |cs|
  {
    var c := cs[i];
    && IsAdjusted(RawValues(cs), i, m.pAdjusted)
    && (m.significant <==> m.pAdjusted < q && c.meanA != c.meanB)
    && m.winner == if !m.significant then "" else if c.meanA > c.meanB then c.adapterA else c.adapterB
  }

  /** The last part of `compare_adapters_task_success`: correct the family, mark each pair. */
  method MarkFamily(cs: seq<Comparison>, q: real) returns (out: seq<Marked>)
    requires PValues(RawValues(cs))
    ensures |out| == |cs| && forall i :: 0 <= i < |cs| ==> IsMarked(cs, q, i, out[i])
  {
    var raw := seq(|cs|, i requires 0 <= i < |cs| => cs[i].pValue);
    var adjusted, _ := BenjaminiHochberg(raw);
    assert raw == RawValues(cs);
    hide IsAdjusted, Walk, Sorting;
    out := [];
    for i := 0 to |cs|
      invariant |out| == i && forall k :: 0 <= k < i ==> IsMarked(cs, q, k, out[k])
    {
      var c, padj := cs[i], adjusted[i];
      var significant := padj < q && c.meanA != c.meanB;
      var winner := "";
      if significant {
        winner := if c.meanA > c.meanB then c.adapterA else c.adapterB;
      }
      out := out + [Marked(padj, significant, winner)];
    }
  }

  /**
   Significance and winner without the adjustment: the means differ, and some p-value at least as large
   meets `m * p_k < q * #{p_j <= p_k}`, its own step-up bound. The winner is the one with the higher mean.
   */
  lemma SignificantExactlyWhen(cs: seq<Comparison>, q: real, i: nat, m: Marked)
    requires i < |cs| && q <= 1.0 && IsMarked(cs, q, i, m)
    ensures m.significant <==> cs[i].meanA != cs[i].meanB && exists k ::
              0 <= k < |cs| && cs[k].pValue >= cs[i].pValue && MeetsOwnBound(cs, q, k)
    ensures !m.significant ==> m.winner == ""
    ensures m.significant && cs[i].meanA > cs[i].meanB ==> m.winner == cs[i].adapterA
    ensures m.significant && cs[i].meanA < cs[i].meanB ==> m.winner == cs[i].adapterB
  {
    var p := RawValues(cs);
    BelowLevel(p, i, m.pAdjusted, q);
    forall k | 0 <= k < |cs|
      ensures Candidate(p, k) < q <==> MeetsOwnBound(cs, q, k)
    {
      CandidateBelow(cs, q, k);
    }
    hide IsAdjusted, Candidate, MeetsOwnBound;
    assert forall k :: 0 <= k < |cs| ==> p[k] == cs[k].pValue;
  }

  ghost predicate MeetsOwnBound(cs: seq<Comparison>, q: real, k: nat)
    requires k < |cs|
  {
    var smaller := set j: nat | j < |cs| && cs[j].pValue <= cs[k].pValue;
    cs[k].pValue * |cs| as real < q * |smaller| as real
  }

  lemma CandidateBelow(cs: seq<Comparison>, q: real, k: nat)
    requires k < |cs|
    ensures Candidate(RawValues(cs), k) < q <==> MeetsOwnBound(cs, q, k)
  {
    var p := RawValues(cs);
    var c, n := Candidate(p, k), |AtMost(p, p[k])|;
    InOwnRank(p, k);
    assert AtMost(p, p[k]) == set j: nat | j < |cs| && cs[j].pValue <= cs[k].pValue;
    if c < q {
      MulLess(c, q, n);
    } else if c > q {
      MulLess(q, c, n);
    }
  }

  /** A pair with different means and no larger a p-value than a significant pair is significant too. */
  lemma SignificanceIsDownwardClosed(cs: seq<Comparison>, q: real, i: nat, j: nat, a: Marked, b: Marked)
    requires i < |cs| && j < |cs| && cs[i].pValue <= cs[j].pValue && cs[i].meanA != cs[i].meanB
    requires IsMarked(cs, q, i, a) && IsMarked(cs, q, j, b) && b.significant
    ensures a.significant
  {
    AdjustedIsMonotone(RawValues(cs), i, j, a.pAdjusted, b.pAdjusted);
  }
}
