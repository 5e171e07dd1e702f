/** Per-query ranking metrics, and the well-formedness contract that keeps them within bounds. */
module RankingMetrics {
  import opened Prelude

  /** What the logarithmic discount contributes at 1-based rank `i`: positive, and strictly less further down. */
  ghost predicate IsDiscount(g: nat -> real) {
    && (forall i :: 0 < i ==> g(i) > 0.0)
    && forall i, j :: 0 < i < j ==> g(i) > g(j)
  }

  datatype Score = Defined(value: real) | NegativeQuery

  function Top(ranked: seq<string>, k: nat): (top: seq<string>)
    ensures top <= ranked && |top| == Min(k, |ranked|)
  {
    if |ranked| <= k then ranked else ranked[..k]
  }

  /** The gain of each relevant document at its rank, summed. */
  function Dcg(rk: seq<string>, gold: set<string>, g: nat -> real): real {
    if rk == [] then 0.0
    else
      var n := |rk|;
      Dcg(rk[..n - 1], gold, g) + if rk[n - 1] in gold then g(n) else 0.0
  }

  /** The gain of `n` relevant documents ranked first. */
  function Ideal(n: nat, g: nat -> real): real {
    if n == 0 then 0.0 else Ideal(n - 1, g) + g(n)
  }

  function Hits(rk: seq<string>, gold: set<string>): nat {
    if rk == [] then 0 else Hits(rk[..|rk| - 1], gold) + if rk[|rk| - 1] in gold then 1 else 0
  }

  function Ndcg(ranked: seq<string>, gold: set<string>, k: nat, g: nat -> real): real {
    var ideal := Ideal(Min(k, |gold|), g);
    if ideal == 0.0 then 0.0 else Dcg(Top(ranked, k), gold, g) / ideal
  }

  /** `ndcg_at_k` */
  method NdcgAtK(ranked: seq<string>, gold: set<string>, k: nat, g: nat -> real) returns (r: Score)
    ensures r == if gold == {} then NegativeQuery else Defined(Ndcg(ranked, gold, k, g))
  {
    if gold == {} { return NegativeQuery; }
    var rk := Top(ranked, k);
    var dcg := 0.0;
    for i := 0 to |rk|
      invariant dcg == Dcg(rk[..i], gold, g)
    {
      assert rk[..i + 1][..i] == rk[..i];
      if rk[i] in gold { dcg := dcg + g(i + 1); }
    }
    assert rk[..|rk|] == rk;
    var idcg := 0.0;
    for i := 0 to Min(k, |gold|)
      invariant idcg == Ideal(i, g)
    {
      idcg := idcg + g(i + 1);
    }
    if idcg == 0.0 { return Defined(0.0); }
    return Defined(dcg / idcg);
  }

  function Reciprocal(n: nat): (r: real)
    requires n > 0
    ensures r * n as real == 1.0
  {
    1.0 / n as real
  }

  /** `reciprocal_rank`: the reciprocal of the first relevant rank within the top `k`, 0 if there is none. */
  method ReciprocalRank(ranked: seq<string>, gold: set<string>, k: nat) returns (r: Score)
    ensures r == NegativeQuery <==> gold == {}
    ensures gold != {} && Hits(Top(ranked, k), gold) == 0 ==> r.value == 0.0
    ensures gold != {} && Hits(Top(ranked, k), gold) > 0 ==>
      exists i :: 0 <= i < |Top(ranked, k)| && ranked[i] in gold && Hits(ranked[..i], gold) == 0
               && r.value == Reciprocal(i + 1)
    ensures gold != {} && (forall i :: 0 <= i < |ranked| && i < k ==> ranked[i] !in gold) ==> r.value == 0.0
    ensures forall i :: 0 <= i < |ranked| && i < k && ranked[i] in gold ==>
              (forall n :: 0 <= n < i ==> ranked[n] !in gold) ==> r.value == Reciprocal(i + 1)
  {
    hide Reciprocal;
    if gold == {} { return NegativeQuery; }
    var rk := Top(ranked, k);
    for i := 0 to |rk|
      invariant Hits(rk[..i], gold) == 0
      invariant forall n :: 0 <= n < i ==> ranked[n] !in gold
    {
      assert rk[..i + 1][..i] == rk[..i];
      if rk[i] in gold {
        assert rk[..i] == ranked[..i];
        HitsOfPrefix(rk, gold, i + 1);
        return Defined(Reciprocal(i + 1));
      }
    }
    assert rk[..|rk|] == rk;
    return Defined(0.0);
  }

  lemma {:induction false} HitsOfPrefix(rk: seq<string>, gold: set<string>, i: nat)
    requires i <= |rk|
    ensures Hits(rk[..i], gold) <= Hits(rk, gold)
  {
    if i < |rk| {
      HitsOfPrefix(rk[..|rk| - 1], gold, i);
      assert rk[..|rk| - 1][..i] == rk[..i];
    } else {
      assert rk[..i] == rk;
    }
  }

  /** `recall_at_k` and `precision_at_k`, over the set of retrieved documents. */
  function Retrieved(ranked: seq<string>, k: nat): set<string> {
    Elements(Top(ranked, k))
  }

  function Recall(ranked: seq<string>, gold: set<string>, k: nat): Score {
    if gold == {} then NegativeQuery else Defined(|Retrieved(ranked, k) * gold| as real / |gold| as real)
  }

  function Precision(ranked: seq<string>, gold: set<string>, k: nat): Score {
    if gold == {} then NegativeQuery
    else if k == 0 then Defined(0.0)
    else Defined(|Retrieved(ranked, k) * gold| as real / k as real)
  }

  /** Both count the relevant documents among the first `k`, each once: over all relevant ones, or over `k`. */
  lemma RecallAndPrecisionCount(ranked: seq<string>, gold: set<string>, k: nat)
    ensures var found := set d | d in gold && exists i :: 0 <= i < |ranked| && i < k && ranked[i] == d;
      && Recall(ranked, gold, k).NegativeQuery? == Precision(ranked, gold, k).NegativeQuery? == (gold == {})
      && (gold != {} ==> Recall(ranked, gold, k).value * |gold| as real == |found| as real)
      && (gold != {} && k > 0 ==> Precision(ranked, gold, k).value * k as real == |found| as real)
      && (gold != {} && k == 0 ==> Precision(ranked, gold, k).value == 0.0)
  {
    hide Retrieved, Top;
    var found := Retrieved(ranked, k) * gold;
    RetrievedIs(ranked, gold, k);
    if gold != {} {
      assert |gold| > 0;
      QuotientTimes(|found| as real, |gold| as real);
      if k > 0 { QuotientTimes(|found| as real, k as real); }
    }
  }

  lemma RetrievedIs(ranked: seq<string>, gold: set<string>, k: nat)
    ensures Retrieved(ranked, k) * gold == set d | d in gold && exists i :: 0 <= i < |ranked| && i < k && ranked[i] == d
  {
    var rk := Top(ranked, k);
    hide Top;
    assert forall i :: 0 <= i < |rk| ==> rk[i] == ranked[i];
  }

  ghost predicate Distinct(s: seq<string>) {
    forall i, j :: 0 <= i < j < |s| ==> s[i] != s[j]
  }

  function Elements(s: seq<string>): set<string> {
    set d | d in s
  }

  lemma OneMoreElement(s: seq<string>, x: string, gold: set<string>)
    requires x !in s
    ensures |Elements(s + [x]) * gold| == |Elements(s) * gold| + if x in gold then 1 else 0
  {
    var a, b := Elements(s) * gold, Elements(s + [x]) * gold;
    assert x !in a;
    assert b == a + if x in gold then {x} else {};
  }

  /** Without duplicates the relevant ranks are as many as the relevant documents retrieved. */
  lemma {:induction false} HitsAreDocuments(rk: seq<string>, gold: set<string>)
    requires Distinct(rk)
    ensures Hits(rk, gold) == |Elements(rk) * gold|
  {
    if rk == [] {
      assert Elements(rk) * gold == {};
    } else {
      var n := |rk| - 1;
      assert rk == rk[..n] + [rk[n]];
      HitsAreDocuments(rk[..n], gold);
      OneMoreElement(rk[..n], rk[n], gold);
      hide Elements;
    }
  }

  // ---------- nDCG is at most 1, and 1 only for a perfect head ----------

  /** The first `n` ranks exist and are all relevant. */
  ghost predicate PerfectHead(rk: seq<string>, gold: set<string>, n: nat) {
    n <= |rk| && forall i :: 0 <= i < n ==> rk[i] in gold
  }

  lemma {:induction false} IdealGrows(a: nat, b: nat, g: nat -> real)
    requires IsDiscount(g) && a <= b
    ensures Ideal(a, g) <= Ideal(b, g) && (Ideal(a, g) == Ideal(b, g) ==> a == b)
  {
    if a < b { IdealGrows(a, b - 1, g); }
  }

  /** The gain is at most that of its hits ranked first, and equal only if they are ranked first. */
  lemma {:induction false} DcgAtMostIdeal(rk: seq<string>, gold: set<string>, g: nat -> real)
    requires IsDiscount(g)
    ensures Hits(rk, gold) <= |rk|
    ensures 0.0 <= Dcg(rk, gold, g) <= Ideal(Hits(rk, gold), g)
    ensures Dcg(rk, gold, g) == Ideal(Hits(rk, gold), g) <==> PerfectHead(rk, gold, Hits(rk, gold))
  {
    if rk != [] {
      var n := |rk| - 1;
      var init := rk[..n];
      DcgAtMostIdeal(init, gold, g);
      var h := Hits(init, gold);
      if rk[n] in gold {
        assert h == n || g(h + 1) > g(n + 1);
        if h == n {
          assert PerfectHead(rk, gold, n + 1) <==> PerfectHead(init, gold, n);
        } else {
          NotAllHits(init, gold);
        }
      } else {
        assert PerfectHead(rk, gold, h) <==> PerfectHead(init, gold, h);
      }
    }
  }

  lemma {:induction false} NotAllHits(rk: seq<string>, gold: set<string>)
    requires Hits(rk, gold) < |rk|
    ensures !PerfectHead(rk, gold, Hits(rk, gold) + 1)
  {
    var n := Hits(rk, gold) + 1;
    if PerfectHead(rk, gold, n) {
      HeadIsHit(rk[..n], gold);
      HitsOfPrefix(rk, gold, n);
    }
  }

  lemma {:induction false} HeadIsHit(rk: seq<string>, gold: set<string>)
    requires forall i :: 0 <= i < |rk| ==> rk[i] in gold
    ensures Hits(rk, gold) == |rk|
  {
    if rk != [] { HeadIsHit(rk[..|rk| - 1], gold); }
  }

  /** Distinct ranks hold at most `min(k, |gold|)` relevant documents. */
  lemma HitsAreFew(ranked: seq<string>, gold: set<string>, k: nat)
    requires Distinct(ranked)
    ensures Hits(Top(ranked, k), gold) <= Min(k, |gold|)
  {
    var rk := Top(ranked, k);
    assert Distinct(rk);
    HitsAreDocuments(rk, gold);
    SubsetSize(Elements(rk) * gold, gold);
    HitsAtMostRanks(rk, gold);
  }

  lemma {:induction false} HitsAtMostRanks(rk: seq<string>, gold: set<string>)
    ensures Hits(rk, gold) <= |rk|
  {
    if rk != [] { HitsAtMostRanks(rk[..|rk| - 1], gold); }
  }

  lemma PerfectHeadHits(rk: seq<string>, gold: set<string>, n: nat)
    requires PerfectHead(rk, gold, n)
    ensures Hits(rk, gold) >= n
  {
    HeadIsHit(rk[..n], gold);
    HitsOfPrefix(rk, gold, n);
  }

  /** On distinct documents the gain is between 0 and the ideal, and is the ideal for a perfect head alone. */
  lemma GainWithinIdeal(ranked: seq<string>, gold: set<string>, k: nat, g: nat -> real)
    requires IsDiscount(g) && gold != {} && Distinct(ranked) && k > 0
    ensures 0.0 <= Dcg(Top(ranked, k), gold, g) <= Ideal(Min(k, |gold|), g)
    ensures Ideal(Min(k, |gold|), g) > 0.0
    ensures Dcg(Top(ranked, k), gold, g) == Ideal(Min(k, |gold|), g)
            <==> PerfectHead(Top(ranked, k), gold, Min(k, |gold|))
  {
    var rk, m := Top(ranked, k), Min(k, |gold|);
    var h := Hits(rk, gold);
    HitsAreFew(ranked, gold, k);
    DcgAtMostIdeal(rk, gold, g);
    IdealGrows(h, m, g);
    IdealGrows(0, m, g);
    if PerfectHead(rk, gold, m) { PerfectHeadHits(rk, gold, m); }
  }

  /**
   On distinct documents nDCG lies in [0, 1], and is 1 exactly when the first min(k, |gold|) ranks
   are relevant.
   */
  lemma NdcgBounds(ranked: seq<string>, gold: set<string>, k: nat, g: nat -> real)
    requires IsDiscount(g) && gold != {} && Distinct(ranked)
    ensures 0.0 <= Ndcg(ranked, gold, k, g) <= 1.0
    ensures Ndcg(ranked, gold, k, g) == 1.0 <==> k > 0 && PerfectHead(Top(ranked, k), gold, Min(k, |gold|))
    ensures k == 0 ==> Ndcg(ranked, gold, k, g) == 0.0
  {
    hide Top, Dcg, PerfectHead, IsDiscount, Distinct;
    if k > 0 {
      GainWithinIdeal(ranked, gold, k, g);
      var dcg, ideal := Dcg(Top(ranked, k), gold, g), Ideal(Min(k, |gold|), g);
      var q := dcg / ideal;
      QuotientTimes(dcg, ideal);
      Trich(q, dcg, ideal);
    }
  }

  lemma QuotientTimes(x: real, y: real)
    requires y > 0.0
    ensures x / y * y == x
  {
  }

  /** How a number compares with 0 and 1, read off its product with a positive one. */
  lemma Trich(q: real, x: real, y: real)
    requires y > 0.0 && q * y == x
    ensures 0.0 <= x ==> 0.0 <= q
    ensures x < y <==> q < 1.0
    ensures x == y <==> q == 1.0
  {
    assert 1.0 * y == y;
    if q < 1.0 { MulLess(q, 1.0, y); } else if q > 1.0 { MulLess(1.0, q, y); }
    if q < 0.0 { MulLess(q, 0.0, y); }
  }

  lemma MulLess(p: real, q: real, y: real)
    requires p < q && y > 0.0
    ensures p * y < q * y
  {
  }

  /** A single relevant document scores the discount of its rank over that of the first. */
  lemma SingleRelevant(ranked: seq<string>, i: nat, k: nat, g: nat -> real)
    requires IsDiscount(g) && i < |ranked| && i < k && Distinct(ranked)
    ensures Ndcg(ranked, {ranked[i]}, k, g) * g(1) == g(i + 1)
  {
    var gold, rk := {ranked[i]}, Top(ranked, k);
    assert Distinct(rk) && rk[i] == ranked[i];
    OnlyGain(rk, i, gold, g);
    assert Ideal(1, g) == Ideal(0, g) + g(1);
    QuotientTimes(g(i + 1), g(1));
  }

  lemma {:induction false} OnlyGain(rk: seq<string>, i: nat, gold: set<string>, g: nat -> real)
    requires i < |rk| && forall n :: 0 <= n < |rk| ==> (rk[n] in gold <==> n == i)
    ensures Dcg(rk, gold, g) == g(i + 1)
  {
    var n := |rk| - 1;
    if i < n {
      OnlyGain(rk[..n], i, gold, g);
    } else {
      NoGain(rk[..n], gold, g);
    }
  }

  lemma {:induction false} NoGain(rk: seq<string>, gold: set<string>, g: nat -> real)
    requires forall n :: 0 <= n < |rk| ==> rk[n] !in gold
    ensures Dcg(rk, gold, g) == 0.0
  {
    if rk != [] { NoGain(rk[..|rk| - 1], gold, g); }
  }

  /** A duplicate is enough to break the bound. */
  lemma DuplicatesExceedOne(g: nat -> real)
    requires IsDiscount(g)
    ensures Ndcg(["d", "d"], {"d"}, 2, g) > 1.0
  {
    var s := ["d", "d"];
    assert s[..1] == ["d"] && s[..1][..0] == [];
    assert Dcg(s, {"d"}, g) == g(1) + g(2);
    assert Ideal(1, g) == g(1);
    var gain := g(1) + g(2);
    QuotientTimes(gain, g(1));
    Trich(gain / g(1), gain, g(1));
  }

  lemma PositiveQuotient(x: real, y: real)
    requires x > 0.0 && y > 0.0
    ensures x / y > 0.0
  {
  }

  // ---------- better rankings score better ----------

  function Gain(d: string, i: nat, gold: set<string>, g: nat -> real): real {
    if d in gold then g(i) else 0.0
  }

  /** Replacing the document at one rank changes the gain of that rank alone. */
  lemma {:induction false} DcgUpdate(rk: seq<string>, gold: set<string>, g: nat -> real, i: nat, d: string)
    requires i < |rk|
    ensures Dcg(rk[i := d], gold, g) == Dcg(rk, gold, g) - Gain(rk[i], i + 1, gold, g) + Gain(d, i + 1, gold, g)
  {
    var n := |rk| - 1;
    if i == n {
      assert rk[i := d][..n] == rk[..n];
    } else {
      assert rk[i := d][..n] == rk[..n][i := d];
      DcgUpdate(rk[..n], gold, g, i, d);
    }
  }

  function Swapped(rk: seq<string>, i: nat, j: nat): seq<string>
    requires i < |rk| && j < |rk|
  {
    rk[i := rk[j]][j := rk[i]]
  }

  /** Swapping a relevant document with a non-relevant one above it raises the gain. */
  lemma SwapRaises(rk: seq<string>, gold: set<string>, g: nat -> real, i: nat, j: nat)
    requires IsDiscount(g) && i < j < |rk| && rk[j] in gold
    ensures rk[i] !in gold ==> Dcg(Swapped(rk, i, j), gold, g) > Dcg(rk, gold, g)
    ensures rk[i] in gold ==> Dcg(Swapped(rk, i, j), gold, g) == Dcg(rk, gold, g)
  {
    DcgUpdate(rk, gold, g, i, rk[j]);
    DcgUpdate(rk[i := rk[j]], gold, g, j, rk[i]);
  }

  /** The document at rank index `j` moved up to `i`, the ones between shifted down. */
  function Moved(rk: seq<string>, i: nat, j: nat): seq<string>
    requires i <= j < |rk|
    decreases j - i
  {
    if i == j then rk else Moved(Swapped(rk, j - 1, j), i, j - 1)
  }

  lemma {:induction false} MovedShifts(rk: seq<string>, i: nat, j: nat)
    requires i <= j < |rk|
    ensures Moved(rk, i, j) == rk[..i] + [rk[j]] + rk[i..j] + rk[j + 1..]
    decreases j - i
  {
    if i < j {
      MovedShifts(Swapped(rk, j - 1, j), i, j - 1);
    }
  }

  /** Moving a relevant document up never lowers the gain, and raises it when it passes a non-relevant one. */
  lemma {:induction false} MoveUpRaises(rk: seq<string>, gold: set<string>, g: nat -> real, i: nat, j: nat)
    requires IsDiscount(g) && i <= j < |rk| && rk[j] in gold
    ensures Dcg(Moved(rk, i, j), gold, g) >= Dcg(rk, gold, g)
    ensures (exists b :: i <= b < j && rk[b] !in gold) ==> Dcg(Moved(rk, i, j), gold, g) > Dcg(rk, gold, g)
    decreases j - i
  {
    if i < j {
      var s := Swapped(rk, j - 1, j);
      SwapRaises(rk, gold, g, j - 1, j);
      MoveUpRaises(s, gold, g, i, j - 1);
      if b :| i <= b < j - 1 && rk[b] !in gold {
        assert s[b] == rk[b];
      }
    }
  }

  /** The same for the metric, for moves within the top `k`. */
  lemma MoveUpRaisesNdcg(ranked: seq<string>, gold: set<string>, k: nat, g: nat -> real, i: nat, j: nat)
    requires IsDiscount(g) && gold != {} && i <= j < |Top(ranked, k)| && ranked[j] in gold
    ensures Ndcg(Moved(ranked, i, j), gold, k, g) >= Ndcg(ranked, gold, k, g)
    ensures (exists b :: i <= b < j && ranked[b] !in gold) ==>
              Ndcg(Moved(ranked, i, j), gold, k, g) > Ndcg(ranked, gold, k, g)
  {
    var rk := Top(ranked, k);
    MovedWithinTop(ranked, k, i, j);
    MoveUpRaises(rk, gold, g, i, j);
    assert forall b :: i <= b < j ==> rk[b] == ranked[b];
    var m := Min(k, |gold|);
    IdealGrows(0, m, g);
    hide Moved, Dcg, Ideal, Top;
    DivideMonotone(Dcg(rk, gold, g), Dcg(Moved(rk, i, j), gold, g), Ideal(m, g));
  }

  lemma MovedWithinTop(ranked: seq<string>, k: nat, i: nat, j: nat)
    requires i <= j < |Top(ranked, k)|
    ensures Top(Moved(ranked, i, j), k) == Moved(Top(ranked, k), i, j)
  {
    MovedShifts(ranked, i, j);
    MovedShifts(Top(ranked, k), i, j);
    hide Moved;
    if |ranked| > k {
      var a, b := Moved(ranked, i, j), Moved(ranked[..k], i, j);
      forall n | 0 <= n < k
        ensures a[n] == b[n]
      {
        assert a[n] == if n < i then ranked[n] else if n == i then ranked[j]
                       else if n <= j then ranked[n - 1] else ranked[n];
      }
      assert a[..k] == b;
    }
  }

  lemma DivideMonotone(x: real, z: real, y: real)
    requires x <= z && y > 0.0
    ensures x / y <= z / y && (x < z ==> x / y < z / y)
  {
    assert (z - x) / y >= 0.0;
    assert z / y - x / y == (z - x) / y;
  }

  // ---------- the metrics against one another ----------

  /** On distinct documents every metric is zero together, and precision and recall count the same documents. */
  lemma MetricsAgree(ranked: seq<string>, gold: set<string>, k: nat, g: nat -> real)
    requires IsDiscount(g) && gold != {} && Distinct(ranked) && k > 0
    ensures var h := Hits(Top(ranked, k), gold);
      && Recall(ranked, gold, k) == Defined(h as real / |gold| as real)
      && Precision(ranked, gold, k) == Defined(h as real / k as real)
      && (h == 0 <==> Ndcg(ranked, gold, k, g) == 0.0)
  {
    var rk := Top(ranked, k);
    assert Distinct(rk);
    HitsAreDocuments(rk, gold);
    NdcgIsZeroWithoutHits(ranked, gold, k, g);
    hide Hits, Ndcg, Elements;
  }

  lemma NdcgIsZeroWithoutHits(ranked: seq<string>, gold: set<string>, k: nat, g: nat -> real)
    requires IsDiscount(g) && gold != {} && k > 0
    ensures Hits(Top(ranked, k), gold) == 0 <==> Ndcg(ranked, gold, k, g) == 0.0
  {
    var rk := Top(ranked, k);
    DcgPositive(rk, gold, g);
    IdealGrows(0, Min(k, |gold|), g);
    var x, y := Dcg(rk, gold, g), Ideal(Min(k, |gold|), g);
    hide Hits, Dcg, Ideal, Top;
    if x > 0.0 { PositiveQuotient(x, y); }
  }

  lemma {:induction false} DcgPositive(rk: seq<string>, gold: set<string>, g: nat -> real)
    requires IsDiscount(g)
    ensures Dcg(rk, gold, g) >= 0.0 && (Hits(rk, gold) == 0 <==> Dcg(rk, gold, g) == 0.0)
  {
    if rk != [] { DcgPositive(rk[..|rk| - 1], gold, g); }
  }

  // ---------- the contract ----------

  datatype ContractError = NotInCorpus(rank: nat) | Duplicate(rank: nat) | TooMany | BannedMarkers
  datatype Verdict = WellFormed | Rejected(error: ContractError)

  ghost predicate Sound(ranked: seq<string>, corpus: set<string>) {
    Distinct(ranked) && forall d :: d in ranked ==> d in corpus
  }

  /** `assert_well_formed`; `markers` are the banned role markers found in the context string. */
  method AssertWellFormed(ranked: seq<string>, corpus: set<string>, maxDocs: int, markers: seq<string>)
    returns (v: Verdict)
    ensures v.WellFormed? <==> Sound(ranked, corpus) && |ranked| <= maxDocs && markers == []
    ensures v.WellFormed? <==>
      && (forall i, k :: 0 <= i < k < |ranked| ==> ranked[i] != ranked[k])
      && (forall i :: 0 <= i < |ranked| ==> ranked[i] in corpus)
      && |ranked| <= maxDocs && markers == []
    ensures v == Rejected(BannedMarkers) ==> Sound(ranked, corpus) && |ranked| <= maxDocs && markers != []
    ensures v == Rejected(TooMany) ==> Sound(ranked, corpus) && |ranked| > maxDocs
    ensures v.Rejected? && v.error.NotInCorpus? ==>
      var i := v.error.rank; i < |ranked| && Sound(ranked[..i], corpus) && ranked[i] !in corpus
    ensures v.Rejected? && v.error.Duplicate? ==>
      var i := v.error.rank;
      i < |ranked| && Sound(ranked[..i], corpus) && ranked[i] in corpus && ranked[i] in ranked[..i]
  {
    var seen := {};
    for i := 0 to |ranked|
      invariant seen == Elements(ranked[..i]) && Sound(ranked[..i], corpus)
    {
      var d := ranked[i];
      if d !in corpus { return Rejected(NotInCorpus(i)); }
      if d in seen { return Rejected(Duplicate(i)); }
      seen := seen + {d};
      assert ranked[..i + 1] == ranked[..i] + [d];
    }
    assert ranked[..|ranked|] == ranked;
    if |ranked| > maxDocs { return Rejected(TooMany); }
    if markers != [] { return Rejected(BannedMarkers); }
    return WellFormed;
  }

  /** What the scorer may therefore assume of an accepted result. */
  method ScoreAccepted(ranked: seq<string>, corpus: set<string>, maxDocs: int, markers: seq<string>,
                       gold: set<string>, k: nat, g: nat -> real) returns (v: Verdict, r: Score)
    requires IsDiscount(g) && gold != {}
    ensures v.WellFormed? ==> r.Defined? && 0.0 <= r.value <= 1.0
  {
    v := AssertWellFormed(ranked, corpus, maxDocs, markers);
    r := NdcgAtK(ranked, gold, k, g);
    if v.WellFormed? { NdcgBounds(ranked, gold, k, g); }
  }
}
