/** Cohen's kappa between two raters, and the gate that must clear before judge numbers are published. */
module JudgeAgreement {
  import opened Prelude

  const MIN_SUBSET_N: nat := 40
  const MIN_AGREEMENT: real := 0.80
  const MIN_KAPPA: real := 0.60

  function Count(s: seq<int>, l: int): nat {
    if s == [] then 0 else Count(s[1..], l) + if s[0] == l then 1 else 0
  }

  /** Positions where both raters say the same. */
  function Agreed(h: seq<int>, j: seq<int>): nat
    requires |h| == |j|
  {
    if h == [] then 0 else Agreed(h[1..], j[1..]) + if h[0] == j[0] then 1 else 0
  }

  /** Pairs of one human and one judge label that are equal: chance agreement, over n * n. */
  function Matches(h: seq<int>, j: seq<int>): nat {
    if h == [] then 0 else Matches(h[1..], j) + Count(j, h[0])
  }

  function Observed(h: seq<int>, j: seq<int>): real
    requires |h| == |j| > 0
  {
    Share(Agreed(h, j), |h|)
  }

  function Chance(h: seq<int>, j: seq<int>): real
    requires |h| == |j| > 0
  {
    OfPairs(Matches(h, j), |h|)
  }

  function Share(c: nat, n: nat): real
    requires n > 0
  {
    c as real / n as real
  }

  function OfPairs(c: nat, n: nat): real
    requires n > 0
  {
    c as real / (n * n) as real
  }

  /** How often both would say `l` if each kept its own rate but they did not look at the same item. */
  function ByChance(h: seq<int>, j: seq<int>, l: int): real
    requires |h| == |j| > 0
  {
    Share(Count(h, l), |h|) * Share(Count(j, l), |j|)
  }

  function Kappa(h: seq<int>, j: seq<int>): real
    requires |h| == |j| > 0
  {
    var rest := 1.0 - Chance(h, j);
    if rest == 0.0 then 0.0 else (Observed(h, j) - Chance(h, j)) / rest
  }

  datatype Measure = Value(value: real) | LengthMismatch | EmptySubset

  // ---------- label by label ----------

  /** The parts of the counts that concern labels in `ls`. */
  ghost function CountIn(s: seq<int>, ls: set<int>): nat {
    if s == [] then 0 else CountIn(s[1..], ls) + if s[0] in ls then 1 else 0
  }

  ghost function AgreedIn(h: seq<int>, j: seq<int>, ls: set<int>): nat
    requires |h| == |j|
  {
    if h == [] then 0 else AgreedIn(h[1..], j[1..], ls) + if h[0] == j[0] && h[0] in ls then 1 else 0
  }

  ghost function MatchesIn(h: seq<int>, j: seq<int>, ls: set<int>): nat {
    if h == [] then 0 else MatchesIn(h[1..], j, ls) + if h[0] in ls then Count(j, h[0]) else 0
  }

  lemma {:induction false} CountInStep(s: seq<int>, ls: set<int>, l: int)
    requires l !in ls
    ensures CountIn(s, ls + {l}) == CountIn(s, ls) + Count(s, l)
  {
    if s != [] { CountInStep(s[1..], ls, l); }
  }

  lemma {:induction false} AgreedInStep(h: seq<int>, j: seq<int>, ls: set<int>, l: int)
    requires |h| == |j| && l !in ls
    ensures AgreedIn(h, j, ls + {l}) == AgreedIn(h, j, ls) + AgreedIn(h, j, {l})
  {
    if h != [] { AgreedInStep(h[1..], j[1..], ls, l); }
  }

  lemma {:induction false} MatchesInStep(h: seq<int>, j: seq<int>, ls: set<int>, l: int)
    requires l !in ls
    ensures MatchesIn(h, j, ls + {l}) == MatchesIn(h, j, ls) + Count(h, l) * Count(j, l)
  {
    if h != [] {
      MatchesInStep(h[1..], j, ls, l);
      var c := Count(h[1..], l);
      assert (c + 1) * Count(j, l) == c * Count(j, l) + Count(j, l);
    }
  }

  lemma {:induction false} NoLabels(h: seq<int>, j: seq<int>)
    requires |h| == |j|
    ensures CountIn(h, {}) == 0 && CountIn(j, {}) == 0 && AgreedIn(h, j, {}) == 0 && MatchesIn(h, j, {}) == 0
  {
    if h != [] { NoLabels(h[1..], j[1..]); NoMatches(h, j); }
  }

  lemma {:induction false} NoMatches(h: seq<int>, j: seq<int>)
    ensures MatchesIn(h, j, {}) == 0
  {
    if h != [] { NoMatches(h[1..], j); }
  }

  lemma {:induction false} AllCounts(s: seq<int>, ls: set<int>)
    requires forall i :: 0 <= i < |s| ==> s[i] in ls
    ensures CountIn(s, ls) == |s|
  {
    if s != [] { AllCounts(s[1..], ls); }
  }

  lemma {:induction false} AllAgreed(h: seq<int>, j: seq<int>, ls: set<int>)
    requires |h| == |j| && forall i :: 0 <= i < |h| ==> h[i] in ls
    ensures AgreedIn(h, j, ls) == Agreed(h, j)
  {
    if h != [] { AllAgreed(h[1..], j[1..], ls); }
  }

  lemma {:induction false} AllMatches(h: seq<int>, j: seq<int>, ls: set<int>)
    requires forall i :: 0 <= i < |h| ==> h[i] in ls
    ensures MatchesIn(h, j, ls) == Matches(h, j)
  {
    if h != [] { AllMatches(h[1..], j, ls); }
  }

  // ---------- the computation ----------

  function Labels(h: seq<int>, j: seq<int>): set<int> {
    (set x | x in h) + (set x | x in j)
  }

  /** `compute_cohen_kappa` */
  method ComputeCohenKappa(h: seq<int>, j: seq<int>) returns (r: Measure)
    ensures |h| != |j| ==> r == LengthMismatch
    ensures |h| == |j| == 0 ==> r == EmptySubset
    ensures |h| == |j| > 0 ==> r == Value(Kappa(h, j))
  {
    if |h| != |j| { return LengthMismatch; }
    var n := |h|;
    if n == 0 { return EmptySubset; }
    var pe := ChanceByLabel(h, j);
    var po := Observed(h, j);
    var denom := 1.0 - pe;
    if denom == 0.0 { return Value(0.0); }
    return Value((po - pe) / denom);
  }

  /** The loop over the labels, in whatever order the set gives them. */
  method ChanceByLabel(h: seq<int>, j: seq<int>) returns (pe: real)
    requires |h| == |j| > 0
    ensures pe == Chance(h, j)
  {
    var n := |h|;
    var todo := Labels(h, j);
    pe := 0.0;
    ghost var done := {};
    NothingCounted(h, j);
    hide *;
    while todo != {}
      invariant done !! todo && done + todo == Labels(h, j)
      invariant pe == OfPairs(MatchesIn(h, j, done), n)
      decreases |todo|
    {
      var l := Any(todo);
      ChanceStep(h, j, done, l);
      pe := pe + ByChance(h, j, l);
      todo := todo - {l};
      done := done + {l};
    }
    assert done == Labels(h, j);
    EverythingCounted(h, j);
  }

  lemma ChanceStep(h: seq<int>, j: seq<int>, done: set<int>, l: int)
    requires |h| == |j| > 0 && l !in done
    ensures OfPairs(MatchesIn(h, j, done + {l}), |h|) ==
            OfPairs(MatchesIn(h, j, done), |h|) + ByChance(h, j, l)
  {
    hide *;
    MatchesInStep(h, j, done, l);
    ByChanceIs(h, j, l, MatchesIn(h, j, done));
  }

  lemma ByChanceIs(h: seq<int>, j: seq<int>, l: int, m: nat)
    requires |h| == |j| > 0
    ensures OfPairs(m, |h|) + ByChance(h, j, l) == OfPairs(m + Count(h, l) * Count(j, l), |h|)
  {
    hide Count;
    ProductOfShares(Count(h, l), Count(j, l), |h|, m);
    hide Share, OfPairs;
  }

  lemma NothingCounted(h: seq<int>, j: seq<int>)
    requires |h| > 0
    ensures OfPairs(MatchesIn(h, j, {}), |h|) == 0.0
  {
    NoMatches(h, j);
  }

  lemma EverythingCounted(h: seq<int>, j: seq<int>)
    requires |h| == |j| > 0
    ensures OfPairs(MatchesIn(h, j, Labels(h, j)), |h|) == Chance(h, j)
  {
    AllMatches(h, j, Labels(h, j));
  }

  lemma ProductOfShares(a: nat, b: nat, n: nat, m: nat)
    requires n > 0
    ensures OfPairs(m, n) + Share(a, n) * Share(b, n) == OfPairs(m + a * b, n)
  {
    var x, y, r := a as real, b as real, n as real;
    assert (n * n) as real == r * r;
    assert (a * b) as real == x * y;
    assert (x / r) * (y / r) == (x * y) / (r * r);
  }

  // ---------- bounds ----------

  lemma {:induction false} BothCount(h: seq<int>, j: seq<int>, l: int)
    requires |h| == |j|
    ensures AgreedIn(h, j, {l}) + |h| >= Count(h, l) + Count(j, l)
    ensures Count(h, l) <= |h| && Count(j, l) <= |h|
  {
    if h != [] { BothCount(h[1..], j[1..], l); }
  }

  lemma SquareOfSum(x: int, y: int)
    ensures (x + y) * (x + y) == x * x + 2 * (x * y) + y * y
  {
  }

  lemma MulMonotone(x: nat, y: nat, k: nat)
    requires x <= y
    ensures k * x <= k * y
  {
  }

  lemma FourProducts(x: int, y: int)
    ensures 4 * (x * y) <= (x + y) * (x + y)
  {
    SquareOfSum(x, y);
    SquareOfDifference(x, y);
    SquareNotNegative(x - y);
  }

  lemma SquareOfDifference(x: int, y: int)
    ensures (x - y) * (x - y) == x * x - 2 * (x * y) + y * y
  {
  }

  lemma SquareNotNegative(d: int)
    ensures d * d >= 0
  {
  }

  /**
   The balance of agreements and matches, for some labels, among n items: `c` uses by either rater, `a`
   joint uses, `m` matches.
   */
  ghost predicate Balanced(n: nat, c: nat, a: nat, m: int) {
    n * c + 2 * (n * a) >= 4 * m
  }

  /**
   One label's part of the lower bound: with x, y its shares and a the share of joint uses,
   (x + y) / 2 + a >= 2xy.
   */
  lemma LabelBalance(n: nat, x: nat, y: nat, a: nat)
    requires x <= n && y <= n && a + n >= x + y
    ensures Balanced(n, x + y, a, x * y)
  {
    var s := x + y;
    FourProducts(x, y);
    if s <= n {
      MulMonotone(s, n, s);
      MulMonotone(0, a, n);
    } else {
      var t := s - n;
      MulMonotone(t, a, n);
      MulMonotone(t, n, t);
      SquareOfSum(n, t);
      assert n * (n + t) == n * n + n * t;
    }
  }

  lemma {:induction false} Balance(h: seq<int>, j: seq<int>, ls: set<int>)
    requires |h| == |j|
    ensures Balanced(|h|, CountIn(h, ls) + CountIn(j, ls), AgreedIn(h, j, ls), MatchesIn(h, j, ls))
  {
    if ls == {} {
      NoLabels(h, j);
    } else {
      var l := AnyElement(ls);
      var rest := ls - {l};
      hide Balanced;
      Balance(h, j, rest);
      assert ls == rest + {l};
      BalanceStep(h, j, rest, l);
    }
  }

  lemma BalanceStep(h: seq<int>, j: seq<int>, ls: set<int>, l: int)
    requires |h| == |j| && l !in ls
    requires Balanced(|h|, CountIn(h, ls) + CountIn(j, ls), AgreedIn(h, j, ls), MatchesIn(h, j, ls))
    ensures var ms := ls + {l};
      Balanced(|h|, CountIn(h, ms) + CountIn(j, ms), AgreedIn(h, j, ms), MatchesIn(h, j, ms))
  {
    hide *;
    CountInStep(h, ls, l);
    CountInStep(j, ls, l);
    AgreedInStep(h, j, ls, l);
    MatchesInStep(h, j, ls, l);
    BothCount(h, j, l);
    var x, y, a := Count(h, l), Count(j, l), AgreedIn(h, j, {l});
    LabelBalance(|h|, x, y, a);
    AddBalances(|h|, CountIn(h, ls) + CountIn(j, ls), AgreedIn(h, j, ls), MatchesIn(h, j, ls), x + y, a, x * y);
  }

  lemma AddBalances(n: nat, c: nat, a: nat, m: int, c': nat, a': nat, m': int)
    requires Balanced(n, c, a, m) && Balanced(n, c', a', m')
    ensures Balanced(n, c + c', a + a', m + m')
  {
    assert n * (c + c') == n * c + n * c';
    assert n * (a + a') == n * a + n * a';
  }

  lemma {:induction false} CountAtMost(s: seq<int>, l: int)
    ensures Count(s, l) <= |s|
  {
    if s != [] { CountAtMost(s[1..], l); }
  }

  lemma {:induction false} MatchesAtMost(h: seq<int>, j: seq<int>)
    ensures Matches(h, j) <= |h| * |j|
  {
    if h != [] {
      MatchesAtMost(h[1..], j);
      CountAtMost(j, h[0]);
      assert |h| * |j| == (|h| - 1) * |j| + |j|;
    }
  }

  lemma {:induction false} AgreedAtMost(h: seq<int>, j: seq<int>)
    requires |h| == |j|
    ensures Agreed(h, j) <= |h| && (Agreed(h, j) == |h| <==> h == j)
  {
    if h != [] {
      AgreedAtMost(h[1..], j[1..]);
      assert h == [h[0]] + h[1..] && j == [j[0]] + j[1..];
    }
  }

  /** All labels together: twice the matches are at most n * n + n * agreements. */
  lemma MatchesAgainstAgreed(h: seq<int>, j: seq<int>)
    requires |h| == |j|
    ensures |h| * |h| + |h| * Agreed(h, j) >= 2 * Matches(h, j)
  {
    var n, ls := |h|, Labels(h, j);
    Balance(h, j, ls);
    AllCounts(h, ls);
    AllCounts(j, ls);
    AllAgreed(h, j, ls);
    AllMatches(h, j, ls);
    hide Agreed, Matches, Count, CountIn, AgreedIn, MatchesIn, Labels;
    Doubled(n);
  }

  lemma Doubled(n: nat)
    ensures n * (n + n) == 2 * (n * n)
  {
  }

  lemma MulLess(p: real, q: real, y: real)
    requires p < q && y > 0.0
    ensures p * y < q * y
  {
  }

  lemma ShareTimes(c: nat, n: nat)
    requires n > 0
    ensures Share(c, n) * n as real == c as real
  {
  }

  lemma OfPairsTimes(c: nat, n: nat)
    requires n > 0
    ensures OfPairs(c, n) * (n * n) as real == c as real
  {
  }

  /**
   Kappa from the counts: with A agreements and M matches among n items, it solves
   kappa * (n * n - M) == n * A - M.
   */
  lemma KappaFromCounts(h: seq<int>, j: seq<int>)
    requires |h| == |j| > 0
    ensures var n, a, m := |h|, Agreed(h, j), Matches(h, j);
      && m <= n * n
      && (m == n * n ==> Kappa(h, j) == 0.0)
      && (m < n * n ==> Kappa(h, j) * (n * n - m) as real == (n * a - m) as real)
  {
    hide *;
    var n, a, m := |h|, Agreed(h, j), Matches(h, j);
    MatchesAtMost(h, j);
    SharesTimes(h, j);
    KappaSolves(h, j);
    SquarePositive(n);
    RestIsZero(Chance(h, j), (n * n) as real, m as real);
    if m < n * n {
      CrossMultiply(Kappa(h, j), Observed(h, j), Chance(h, j), n, a, m);
    }
  }

  lemma SquarePositive(n: nat)
    requires n > 0
    ensures n * n > 0
  {
  }

  lemma SharesTimes(h: seq<int>, j: seq<int>)
    requires |h| == |j| > 0
    ensures Observed(h, j) * |h| as real == Agreed(h, j) as real
    ensures Chance(h, j) * (|h| * |h|) as real == Matches(h, j) as real
  {
    hide Agreed, Matches, Share, OfPairs;
    ShareTimes(Agreed(h, j), |h|);
    OfPairsTimes(Matches(h, j), |h|);
  }

  lemma KappaSolves(h: seq<int>, j: seq<int>)
    requires |h| == |j| > 0
    ensures Chance(h, j) == 1.0 ==> Kappa(h, j) == 0.0
    ensures Chance(h, j) != 1.0 ==> Kappa(h, j) * (1.0 - Chance(h, j)) == Observed(h, j) - Chance(h, j)
  {
    hide Observed, Chance;
  }

  lemma RestIsZero(pe: real, sq: real, m: real)
    requires sq > 0.0 && pe * sq == m
    ensures pe == 1.0 <==> m == sq
  {
    if pe < 1.0 { MulLess(pe, 1.0, sq); }
    if pe > 1.0 { MulLess(1.0, pe, sq); }
  }

  lemma CrossMultiply(k: real, po: real, pe: real, n: nat, a: nat, m: nat)
    requires k * (1.0 - pe) == po - pe
    requires po * n as real == a as real && pe * (n * n) as real == m as real
    ensures k * (n * n - m) as real == (n * a - m) as real
  {
    var r := n as real;
    var sq := (n * n) as real;
    assert sq == r * r && (n * a) as real == r * a as real;
    assert k * (1.0 - pe) * sq == (po - pe) * sq;
    assert (1.0 - pe) * sq == (n * n - m) as real;
    assert po * sq == (po * r) * r == (n * a) as real;
    assert k * ((1.0 - pe) * sq) == k * (1.0 - pe) * sq;
  }

  /** -1 <= kappa <= 1, on any labels. */
  lemma KappaBounds(h: seq<int>, j: seq<int>)
    requires |h| == |j| > 0
    ensures -1.0 <= Kappa(h, j) <= 1.0
  {
    hide *;
    var n, a, m := |h|, Agreed(h, j), Matches(h, j);
    KappaFromCounts(h, j);
    AgreedAtMost(h, j);
    MatchesAgainstAgreed(h, j);
    MulAtMost(n, a);
    if m < n * n { FractionBounds(Kappa(h, j), n * a - m, n * n - m); }
  }

  lemma MulAtMost(n: nat, a: nat)
    requires a <= n
    ensures n * a <= n * n && (a == n <==> n == 0 || n * a == n * n)
  {
  }

  lemma FractionBounds(k: real, p: int, q: int)
    requires q > 0 && k * q as real == p as real
    ensures p <= q ==> k <= 1.0
    ensures -q <= p ==> -1.0 <= k
    ensures p == q <==> k == 1.0
  {
    var y := q as real;
    if k > 1.0 { MulLess(1.0, k, y); }
    if k < 1.0 { MulLess(k, 1.0, y); }
    if k < -1.0 { MulLess(k, -1.0, y); }
  }

  // ---------- what kappa does not depend on ----------

  lemma {:induction false} MatchesInSymmetric(h: seq<int>, j: seq<int>, ls: set<int>)
    ensures MatchesIn(h, j, ls) == MatchesIn(j, h, ls)
  {
    if ls == {} {
      NoMatches(h, j);
      NoMatches(j, h);
    } else {
      var l := AnyElement(ls);
      var rest := ls - {l};
      assert ls == rest + {l};
      MatchesInSymmetric(h, j, rest);
      MatchesInStep(h, j, rest, l);
      MatchesInStep(j, h, rest, l);
    }
  }

  lemma {:induction false} AgreedSymmetric(h: seq<int>, j: seq<int>)
    requires |h| == |j|
    ensures Agreed(h, j) == Agreed(j, h)
  {
    if h != [] { AgreedSymmetric(h[1..], j[1..]); }
  }

  /** It does not matter which rater comes first. */
  lemma KappaSymmetric(h: seq<int>, j: seq<int>)
    requires |h| == |j| > 0
    ensures Kappa(h, j) == Kappa(j, h)
  {
    var ls := Labels(h, j);
    AgreedSymmetric(h, j);
    MatchesInSymmetric(h, j, ls);
    AllMatches(h, j, ls);
    AllMatches(j, h, ls);
  }

  function Relabel(s: seq<int>, f: int -> int): seq<int> {
    seq(|s|, i requires 0 <= i < |s| => f(s[i]))
  }

  ghost predicate Injective(f: int -> int, ls: set<int>) {
    forall x, y :: x in ls && y in ls && f(x) == f(y) ==> x == y
  }

  lemma RelabelStep(s: seq<int>, f: int -> int)
    requires s != []
    ensures Relabel(s, f)[0] == f(s[0]) && Relabel(s, f)[1..] == Relabel(s[1..], f)
  {
  }

  lemma {:induction false} CountRelabel(s: seq<int>, l: int, f: int -> int, ls: set<int>)
    requires Injective(f, ls) && l in ls && forall i :: 0 <= i < |s| ==> s[i] in ls
    ensures Count(Relabel(s, f), f(l)) == Count(s, l)
  {
    if s != [] {
      RelabelStep(s, f);
      CountRelabel(s[1..], l, f, ls);
      hide Relabel;
      assert f(s[0]) == f(l) <==> s[0] == l;
    }
  }

  lemma {:induction false} MatchesRelabel(h: seq<int>, j: seq<int>, f: int -> int, ls: set<int>)
    requires Injective(f, ls)
    requires (forall i :: 0 <= i < |h| ==> h[i] in ls) && forall i :: 0 <= i < |j| ==> j[i] in ls
    ensures Matches(Relabel(h, f), Relabel(j, f)) == Matches(h, j)
  {
    if h != [] {
      RelabelStep(h, f);
      MatchesRelabel(h[1..], j, f, ls);
      CountRelabel(j, h[0], f, ls);
      hide Relabel;
    }
  }

  lemma {:induction false} AgreedRelabel(h: seq<int>, j: seq<int>, f: int -> int, ls: set<int>)
    requires |h| == |j| && Injective(f, ls)
    requires forall i :: 0 <= i < |h| ==> h[i] in ls && j[i] in ls
    ensures Agreed(Relabel(h, f), Relabel(j, f)) == Agreed(h, j)
  {
    if h != [] {
      RelabelStep(h, f);
      RelabelStep(j, f);
      AgreedRelabel(h[1..], j[1..], f, ls);
      hide Relabel;
      assert f(h[0]) == f(j[0]) <==> h[0] == j[0];
    }
  }

  /** Renaming the labels one to one, swapping 0 and 1 for instance, changes nothing. */
  lemma KappaRelabel(h: seq<int>, j: seq<int>, f: int -> int)
    requires |h| == |j| > 0 && Injective(f, Labels(h, j))
    ensures Kappa(Relabel(h, f), Relabel(j, f)) == Kappa(h, j)
  {
    hide Matches, Agreed;
    MatchesRelabel(h, j, f, Labels(h, j));
    AgreedRelabel(h, j, f, Labels(h, j));
  }

  // ---------- perfect and constant raters ----------

  ghost predicate Constant(s: seq<int>) {
    forall i, k :: 0 <= i < |s| && 0 <= k < |s| ==> s[i] == s[k]
  }

  lemma {:induction false} CountConstant(s: seq<int>, l: int)
    ensures Count(s, l) == |s| <==> forall i :: 0 <= i < |s| ==> s[i] == l
  {
    if s != [] {
      CountConstant(s[1..], l);
      CountAtMost(s[1..], l);
      assert forall i :: 0 < i < |s| ==> s[i] == s[1..][i - 1];
    }
  }

  lemma {:induction false} MatchesOfConstant(h: seq<int>, j: seq<int>, l: int)
    requires forall i :: 0 <= i < |h| ==> h[i] == l
    ensures Matches(h, j) == |h| * Count(j, l)
  {
    if h != [] {
      MatchesOfConstant(h[1..], j, l);
      assert |h| * Count(j, l) == (|h| - 1) * Count(j, l) + Count(j, l);
    }
  }

  lemma {:induction false} AgreedWithConstant(h: seq<int>, j: seq<int>, l: int)
    requires |h| == |j| && forall i :: 0 <= i < |h| ==> h[i] == l
    ensures Agreed(h, j) == Count(j, l)
  {
    if h != [] { AgreedWithConstant(h[1..], j[1..], l); }
  }

  /** A constant rater agrees by chance alone: kappa is 0, whichever rater it is. */
  lemma ConstantRaterScoresZero(h: seq<int>, j: seq<int>)
    requires |h| == |j| > 0 && (Constant(h) || Constant(j))
    ensures Kappa(h, j) == 0.0
  {
    if Constant(h) {
      ConstantFirstScoresZero(h, j);
    } else {
      ConstantFirstScoresZero(j, h);
      KappaSymmetric(h, j);
    }
  }

  lemma ConstantFirstScoresZero(h: seq<int>, j: seq<int>)
    requires |h| == |j| > 0 && Constant(h)
    ensures Kappa(h, j) == 0.0
  {
    MatchesOfConstant(h, j, h[0]);
    AgreedWithConstant(h, j, h[0]);
    KappaFromCounts(h, j);
    var n, m := |h|, Matches(h, j);
    hide Kappa, Matches, Agreed;
    if m < n * n { ZeroFactor(Kappa(h, j), (n * n - m) as real); }
  }

  lemma ZeroFactor(k: real, y: real)
    requires y > 0.0 && k * y == 0.0
    ensures k == 0.0
  {
    if k > 0.0 { MulLess(0.0, k, y); }
    if k < 0.0 { MulLess(k, 0.0, y); }
  }

  lemma MatchesStep(h: seq<int>, j: seq<int>)
    requires h != []
    ensures Matches(h, j) == Matches(h[1..], j) + Count(j, h[0])
  {
  }

  lemma OneMoreTimes(a: nat, b: nat)
    ensures (a + 1) * b == a * b + b
  {
  }

  /** Matching everything with everything means a single label throughout. */
  lemma {:induction false} AllMatchMeansConstant(h: seq<int>, j: seq<int>)
    ensures Matches(h, j) == |h| * |j| <==> forall i, k :: 0 <= i < |h| && 0 <= k < |j| ==> h[i] == j[k]
  {
    if h != [] {
      hide Matches, Count;
      var t := h[1..];
      AllMatchMeansConstant(t, j);
      MatchesAtMost(t, j);
      CountAtMost(j, h[0]);
      CountConstant(j, h[0]);
      MatchesStep(h, j);
      OneMoreTimes(|t|, |j|);
      assert forall i :: 0 < i < |h| ==> h[i] == t[i - 1];
    }
  }

  /** Kappa is 1 exactly when the raters agree everywhere and use at least two labels. */
  lemma PerfectKappa(h: seq<int>, j: seq<int>)
    requires |h| == |j| > 0
    ensures Kappa(h, j) == 1.0 <==> h == j && !Constant(h)
  {
    hide Kappa, Agreed, Matches;
    var n, a, m := |h|, Agreed(h, j), Matches(h, j);
    KappaFromCounts(h, j);
    AgreedAtMost(h, j);
    AllMatchMeansConstant(h, j);
    MulAtMost(n, a);
    if m < n * n {
      FractionBounds(Kappa(h, j), n * a - m, n * n - m);
    }
  }

  // ---------- the counts, position by position ----------

  lemma {:induction false} CountIsPositions(s: seq<int>, l: int, a: nat)
    requires a <= |s|
    ensures Count(s[a..], l) == |set i: nat | a <= i < |s| && s[i] == l|
    decreases |s| - a
  {
    var now := set i: nat | a <= i < |s| && s[i] == l;
    if a < |s| {
      CountIsPositions(s, l, a + 1);
      assert s[a..][1..] == s[a + 1..];
      var later := set i: nat | a + 1 <= i < |s| && s[i] == l;
      assert now == later + if s[a] == l then {a} else {};
    } else {
      assert now == {};
    }
  }

  lemma {:induction false} AgreedIsPositions(h: seq<int>, j: seq<int>, a: nat)
    requires |h| == |j| && a <= |h|
    ensures Agreed(h[a..], j[a..]) == |set i: nat | a <= i < |h| && h[i] == j[i]|
    decreases |h| - a
  {
    var now := set i: nat | a <= i < |h| && h[i] == j[i];
    if a < |h| {
      AgreedIsPositions(h, j, a + 1);
      assert h[a..][1..] == h[a + 1..] && j[a..][1..] == j[a + 1..];
      var later := set i: nat | a + 1 <= i < |h| && h[i] == j[i];
      assert now == later + if h[a] == j[a] then {a} else {};
    } else {
      assert now == {};
    }
  }

  /** Equal pairs of a position in `h`, from `a` on, and a position in `j`. */
  ghost function EqualPairs(h: seq<int>, j: seq<int>, a: nat): set<(nat, nat)> {
    set i: nat, k: nat | a <= i < |h| && k < |j| && h[i] == j[k] :: (i, k)
  }

  ghost function Paired(i: nat, ks: set<nat>): set<(nat, nat)> {
    set k | k in ks :: (i, k)
  }

  lemma {:induction false} PairedSize(i: nat, ks: set<nat>)
    ensures |Paired(i, ks)| == |ks|
  {
    if ks == {} {
      assert Paired(i, ks) == {};
    } else {
      var x := AnyElement(ks);
      PairedSize(i, ks - {x});
      assert Paired(i, ks) == Paired(i, ks - {x}) + {(i, x)};
      assert (i, x) !in Paired(i, ks - {x});
    }
  }

  lemma OneRowMore(h: seq<int>, j: seq<int>, a: nat, ks: set<nat>)
    requires a < |h| && ks == set k: nat | 0 <= k < |j| && j[k] == h[a]
    ensures |EqualPairs(h, j, a)| == |EqualPairs(h, j, a + 1)| + |ks|
  {
    PairedSize(a, ks);
    var row, rest := Paired(a, ks), EqualPairs(h, j, a + 1);
    forall q: (nat, nat)
      ensures q in EqualPairs(h, j, a) <==> q in rest + row
    {
    }
    assert EqualPairs(h, j, a) == rest + row && rest !! row;
  }

  lemma {:induction false} MatchesIsPairs(h: seq<int>, j: seq<int>, a: nat)
    requires a <= |h|
    ensures Matches(h[a..], j) == |EqualPairs(h, j, a)|
    decreases |h| - a
  {
    if a < |h| {
      MatchesIsPairs(h, j, a + 1);
      assert h[a..][1..] == h[a + 1..];
      var ks := set k: nat | 0 <= k < |j| && j[k] == h[a];
      CountIsPositions(j, h[a], 0);
      assert j[0..] == j;
      OneRowMore(h, j, a, ks);
      hide EqualPairs, Count;
    } else {
      assert EqualPairs(h, j, a) == {};
    }
  }

  /**
   Kappa in terms of the two lists alone: with A positions where they agree and M equal pairs of positions
   among n items, the agreement is A / n and kappa solves kappa * (n * n - M) == n * A - M, or is 0 if M == n * n.
   */
  lemma KappaFromPositions(h: seq<int>, j: seq<int>)
    requires |h| == |j| > 0
    ensures var n, a, m := |h|, |set i: nat | i < |h| && h[i] == j[i]|, |EqualPairs(h, j, 0)|;
      && Observed(h, j) * n as real == a as real
      && m <= n * n
      && (m == n * n ==> Kappa(h, j) == 0.0)
      && (m < n * n ==> Kappa(h, j) * (n * n - m) as real == (n * a - m) as real)
  {
    hide *;
    AgreedIsPositions(h, j, 0);
    MatchesIsPairs(h, j, 0);
    assert h[0..] == h && j[0..] == j;
    assert (set i: nat | i < |h| && h[i] == j[i]) == set i: nat | 0 <= i < |h| && h[i] == j[i];
    SharesTimes(h, j);
    KappaFromCounts(h, j);
  }

  // ---------- the gate ----------

  datatype Calibration = Calibration(n: nat, agreement: real, kappa: real, passed: bool)
  datatype GateError = LabelLengths | TooFewJudgments | InvalidConfig | EmptyCalibration | LowAgreement | LowKappa
  datatype Gate = Publishable(result: Calibration) | Refused(error: GateError)

  /** `calibrate_judge`: measures and reports. */
  method CalibrateJudge(h: seq<int>, j: seq<int>, minN: int := MIN_SUBSET_N, minAgreement: real := MIN_AGREEMENT,
                        minKappa: real := MIN_KAPPA) returns (g: Gate)
    ensures g == Refused(LabelLengths) <==> |h| != |j|
    ensures g == Refused(EmptyCalibration) <==> |h| == |j| == 0
    ensures |h| == |j| > 0 ==> g.Publishable? && g.result == Calibration(|h|, Observed(h, j), Kappa(h, j),
              |h| >= minN && Observed(h, j) >= minAgreement && Kappa(h, j) >= minKappa)
  {
    if |h| != |j| { return Refused(LabelLengths); }
    var n := |h|;
    if n == 0 { return Refused(EmptyCalibration); }
    var agreement := Observed(h, j);
    var kappa := ComputeCohenKappa(h, j);
    var passed := n >= minN && agreement >= minAgreement && kappa.value >= minKappa;
    return Publishable(Calibration(n, agreement, kappa.value, passed));
  }

  /**
   `assert_judge_publishable`; `configValid` is the outcome of the configuration check that forbids
   judging one's own family.
   */
  method AssertJudgePublishable(h: seq<int>, j: seq<int>, configValid: bool, minN: int := MIN_SUBSET_N,
                                minAgreement: real := MIN_AGREEMENT, minKappa: real := MIN_KAPPA)
    returns (g: Gate)
    ensures g.Publishable? <==>
      (|h| == |j| > 0 && |h| >= minN && configValid && Observed(h, j) >= minAgreement && Kappa(h, j) >= minKappa)
    ensures g.Publishable? ==> g.result == Calibration(|h|, Observed(h, j), Kappa(h, j), true)
    ensures g == Refused(TooFewJudgments) <==> |h| < minN
    ensures g == Refused(InvalidConfig) <==> |h| >= minN && !configValid
    ensures g == Refused(LowKappa) ==> |h| == |j| > 0 && Observed(h, j) >= minAgreement && Kappa(h, j) < minKappa
    ensures minKappa > 0.0 && |h| == |j| && (Constant(h) || Constant(j)) ==> g.Refused?
  {
    hide Kappa, Observed;
    if |h| == |j| > 0 && (Constant(h) || Constant(j)) { ConstantRaterScoresZero(h, j); }
    if |h| < minN { return Refused(TooFewJudgments); }
    if !configValid { return Refused(InvalidConfig); }
    g := CalibrateJudge(h, j, minN, minAgreement, minKappa);
    if g.Refused? { return; }
    if g.result.agreement < minAgreement { return Refused(LowAgreement); }
    if g.result.kappa < minKappa { return Refused(LowKappa); }
  }

  /**
   The gate as the second layer of the benchmark calls it: at least 40 labels, agreement on at least four
   fifths of them, and kappa at least 0.6.
   */
  method AssertLayerTwo(h: seq<int>, j: seq<int>, configValid: bool) returns (g: Gate)
    ensures g.Publishable? <==>
      && |h| == |j| >= 40 && configValid && Kappa(h, j) >= 0.6
      && 5 * |set i: nat | i < |h| && h[i] == j[i]| >= 4 * |h|
    ensures g.Publishable? ==> g.result.n == |h| && g.result.kappa == Kappa(h, j) && g.result.passed
    ensures |h| < 40 ==> g == Refused(TooFewJudgments)
  {
    hide Kappa, Observed;
    g := AssertJudgePublishable(h, j, configValid);
    if |h| == |j| > 0 {
      KappaFromPositions(h, j);
      ShareAtLeast(Observed(h, j), |set i: nat | i < |h| && h[i] == j[i]|, |h|);
    }
  }

  lemma ShareAtLeast(x: real, a: nat, n: nat)
    requires n > 0 && x * n as real == a as real
    ensures x >= 0.8 <==> 5 * a >= 4 * n
  {
    FourFifths(a, n);
    AtLeast(x, 0.8, n as real, a as real);
  }

  lemma AtLeast(x: real, bound: real, y: real, c: real)
    requires y > 0.0 && x * y == c
    ensures x >= bound <==> c >= bound * y
  {
    if x < bound {
      MulLess(x, bound, y);
    } else if x > bound {
      MulLess(bound, x, y);
    }
  }

  lemma FourFifths(a: nat, n: nat)
    ensures 5 * a >= 4 * n <==> a as real >= 0.8 * n as real
  {
    assert 5.0 * (0.8 * n as real) == (4 * n) as real;
    assert 5.0 * a as real == (5 * a) as real;
  }
}
