/** Greedy grouping of items under a token budget, and why no grouping uses fewer groups. */
module ListPacking {

  function Sum<T>(g: seq<T>, cost: T -> nat): nat {
    if g == [] then 0 else cost(g[0]) + Sum(g[1..], cost)
  }

  function Concat<T>(groups: seq<seq<T>>): seq<T> {
    if groups == [] then [] else groups[0] + Concat(groups[1..])
  }

  /** Within budget, or a single item that nothing can split. */
  predicate Fits<T>(g: seq<T>, budget: int, cost: T -> nat) {
    Sum(g, cost) <= budget || |g| <= 1
  }

  /** Every group fits, none is empty, and none could also have taken the item that opens the next. */
  ghost predicate Greedy<T>(groups: seq<seq<T>>, budget: int, cost: T -> nat) {
    && (forall i :: 0 <= i < |groups| ==> groups[i] != [] && Fits(groups[i], budget, cost))
    && (forall i :: 0 < i < |groups| ==> Sum(groups[i - 1], cost) + cost(groups[i][0]) > budget)
  }

  /** `split_list_by_token_budget` */
  method SplitList<T>(items: seq<T>, budget: int, cost: T -> nat) returns (groups: seq<seq<T>>)
    ensures items == [] ==> groups == [[]]
    ensures items != [] ==> Concat(groups) == items && Greedy(groups, budget, cost)
  {
    groups := [];
    var current, currentTokens := [], 0;
    for i := 0 to |items|
      invariant Concat(groups) + current == items[..i]
      invariant currentTokens == Sum(current, cost)
      invariant i > 0 ==> current != []
      invariant current != [] ==> Greedy(groups + [current], budget, cost)
      invariant i == 0 ==> groups == []
    {
      var item, itemTokens := items[i], cost(items[i]);
      assert items[..i + 1] == items[..i] + [item];
      if current != [] && currentTokens + itemTokens > budget {
        ConcatSnoc(groups, current);
        groups := groups + [current];
        current, currentTokens := [], 0;
      }
      SumSnoc(current, item, cost);
      GreedyGrows(groups, current, item, budget, cost);
      hide Greedy, Sum, Concat;
      current := current + [item];
      currentTokens := currentTokens + itemTokens;
    }
    assert items[..|items|] == items;
    if current != [] {
      ConcatSnoc(groups, current);
      groups := groups + [current];
    }
    if groups == [] { groups := [[]]; }
  }

  lemma GreedyGrows<T>(groups: seq<seq<T>>, current: seq<T>, item: T, budget: int, cost: T -> nat)
    requires current == [] ==> Greedy(groups, budget, cost)
    requires current == [] && groups != [] ==> Sum(groups[|groups| - 1], cost) + cost(item) > budget
    requires current != [] ==> Greedy(groups + [current], budget, cost) && Sum(current, cost) + cost(item) <= budget
    ensures Greedy(groups + [current + [item]], budget, cost)
  {
    var g := groups + [current + [item]];
    SumSnoc(current, item, cost);
    forall i | 0 <= i < |g|
      ensures g[i] != [] && Fits(g[i], budget, cost)
    {
      if i < |groups| && current != [] { assert (groups + [current])[i] == groups[i]; }
    }
    forall i | 0 < i < |g|
      ensures Sum(g[i - 1], cost) + cost(g[i][0]) > budget
    {
      if current != [] {
        var h := groups + [current];
        assert h[i - 1] == g[i - 1] && h[i][0] == g[i][0];
      }
    }
  }

  lemma {:induction false} ConcatSnoc<T>(groups: seq<seq<T>>, g: seq<T>)
    ensures Concat(groups + [g]) == Concat(groups) + g
  {
    if groups == [] {
      assert [g][1..] == [];
    } else {
      assert (groups + [g])[1..] == groups[1..] + [g];
      ConcatSnoc(groups[1..], g);
    }
  }

  lemma {:induction false} SumSnoc<T>(g: seq<T>, x: T, cost: T -> nat)
    ensures Sum(g + [x], cost) == Sum(g, cost) + cost(x)
  {
    if g == [] {
      assert ([x])[1..] == [];
    } else {
      assert (g + [x])[1..] == g[1..] + [x];
      SumSnoc(g[1..], x, cost);
    }
  }

  lemma {:induction false} SumOfConcat<T>(a: seq<T>, b: seq<T>, cost: T -> nat)
    ensures Sum(a + b, cost) == Sum(a, cost) + Sum(b, cost)
  {
    if a == [] {
      assert a + b == b;
    } else {
      assert (a + b)[1..] == a[1..] + b;
      SumOfConcat(a[1..], b, cost);
    }
  }

  lemma SumOfSlice<T>(g: seq<T>, lo: nat, hi: nat, cost: T -> nat)
    requires lo <= hi <= |g|
    ensures Sum(g[lo..hi], cost) <= Sum(g, cost)
  {
    var a, b, c := g[..lo], g[lo..hi], g[hi..];
    assert g == a + b + c;
    SumOfConcat(a + b, c, cost);
    SumOfConcat(a, b, cost);
  }

  /** Two neighbours together always exceed the budget. */
  lemma NeighboursOverflow<T>(groups: seq<seq<T>>, budget: int, cost: T -> nat, i: nat)
    requires Greedy(groups, budget, cost) && i + 1 < |groups|
    ensures Sum(groups[i] + groups[i + 1], cost) > budget
  {
    var a, b := groups[i], groups[i + 1];
    assert a + [b[0]] == (a + b)[0..|a| + 1];
    SumSnoc(a, b[0], cost);
    SumOfSlice(a + b, 0, |a| + 1, cost);
  }

  /** No contiguous grouping into fitting groups, empty ones allowed, has fewer groups. */
  lemma GreedyIsOptimal<T>(items: seq<T>, groups: seq<seq<T>>, other: seq<seq<T>>, budget: int, cost: T -> nat)
    requires Concat(groups) == items && Greedy(groups, budget, cost)
    requires Concat(other) == items && forall i :: 0 <= i < |other| ==> Fits(other[i], budget, cost)
    ensures |groups| <= |other|
  {
    assert Concat(groups) == Concat(other)[0..];
    GreedyStaysAhead(groups, other, 0, budget, cost);
  }

  /** The greedy groups of the items from `k` on need no more groups than `other` needs for all of them. */
  lemma {:induction false} GreedyStaysAhead<T>(groups: seq<seq<T>>, other: seq<seq<T>>, k: nat, budget: int,
        cost: T -> nat)
    requires Greedy(groups, budget, cost)
    requires forall i :: 0 <= i < |other| ==> Fits(other[i], budget, cost)
    requires k <= |Concat(other)| && Concat(groups) == Concat(other)[k..]
    ensures |groups| <= |other|
    decreases |other|
  {
    if groups != [] {
      var p, g := other[0], groups[0];
      assert Concat(other) == p + Concat(other[1..]);
      assert Concat(groups) == g + Concat(groups[1..]);
      if k >= |p| {
        assert Concat(groups) == Concat(other[1..])[k - |p|..];
        GreedyStaysAhead(groups, other[1..], k - |p|, budget, cost);
      } else {
        FirstGroupReaches(groups, other, k, budget, cost);
        var j := |g| - (|p| - k);
        assert Concat(groups[1..]) == Concat(groups)[|g|..] == Concat(other)[k + |g|..] == Concat(other[1..])[j..];
        GreedyStaysAhead(groups[1..], other[1..], j, budget, cost);
      }
    }
  }

  lemma NextItem<T>(groups: seq<seq<T>>)
    requires groups != [] && |Concat(groups)| > |groups[0]|
    requires |groups| > 1 ==> groups[1] != []
    ensures |groups| > 1 && Concat(groups)[..|groups[0]| + 1] == groups[0] + [groups[1][0]]
  {
    var rest := groups[1..];
    assert Concat(groups) == groups[0] + Concat(rest);
    assert rest != [];
    assert Concat(rest) == groups[1] + Concat(rest[1..]);
  }

  lemma FirstGroupReaches<T>(groups: seq<seq<T>>, other: seq<seq<T>>, k: nat, budget: int, cost: T -> nat)
    requires Greedy(groups, budget, cost) && groups != [] && other != []
    requires Fits(other[0], budget, cost)
    requires k < |other[0]| && k <= |Concat(other)| && Concat(groups) == Concat(other)[k..]
    ensures k + |groups[0]| >= |other[0]|
  {
    var p, g := other[0], groups[0];
    if k + |g| < |p| {
      var n := |g| + 1;
      assert Concat(other)[..|p|] == p;
      NextItem(groups);
      hide Concat;
      assert Concat(groups)[..n] == p[k..k + n];
      SumSnoc(g, groups[1][0], cost);
      SumOfSlice(p, k, k + n, cost);
      assert false;
    }
  }
}
