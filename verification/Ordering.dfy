/** Strings in code-point order, and dictionaries of integers sorted by (value, key). */
module Ordering {
  import opened Prelude

  /** `a < b` on strings. */
  predicate StrLess(a: string, b: string) {
    if b == "" then false
    else if a == "" then true
    else a[0] < b[0] || (a[0] == b[0] && StrLess(a[1..], b[1..]))
  }

  /** Smaller at the first character that differs, or a proper prefix. */
  lemma {:induction false} StrLessExactlyWhen(a: string, b: string)
    ensures StrLess(a, b) <==>
      exists n :: 0 <= n <= |a| && n < |b| && a[..n] == b[..n] && (n == |a| || a[n] < b[n])
  {
    if StrLess(a, b) {
      if a != "" && !(a[0] < b[0]) {
        StrLessExactlyWhen(a[1..], b[1..]);
        var n :| 0 <= n <= |a[1..]| && n < |b[1..]| && a[1..][..n] == b[1..][..n]
                 && (n == |a[1..]| || a[1..][n] < b[1..][n]);
        assert a[..n + 1] == [a[0]] + a[1..][..n] && b[..n + 1] == [b[0]] + b[1..][..n];
      } else {
        assert a[..0] == b[..0];
      }
    }
    if n :| 0 <= n <= |a| && n < |b| && a[..n] == b[..n] && (n == |a| || a[n] < b[n]) {
      if n > 0 {
        assert a[0] == a[..n][0] == b[..n][0] == b[0];
        StrLessExactlyWhen(a[1..], b[1..]);
        assert a[1..][..n - 1] == a[..n][1..] && b[1..][..n - 1] == b[..n][1..];
      }
    }
  }

  lemma {:induction false} StrLessIrreflexive(a: string)
    ensures !StrLess(a, a)
  {
    if a != "" {
      StrLessIrreflexive(a[1..]);
    }
  }

  lemma {:induction false} StrLessTransitive(a: string, b: string, c: string)
    requires StrLess(a, b) && StrLess(b, c)
    ensures StrLess(a, c)
  {
    if a != "" && a[0] == b[0] == c[0] {
      StrLessTransitive(a[1..], b[1..], c[1..]);
    }
  }

  lemma {:induction false} StrLessTotal(a: string, b: string)
    ensures StrLess(a, b) || a == b || StrLess(b, a)
  {
    if a != "" && b != "" && a[0] == b[0] {
      StrLessTotal(a[1..], b[1..]);
      assert a == [a[0]] + a[1..] && b == [b[0]] + b[1..];
    }
  }

  /** The order of `sorted(m.items(), key=lambda kv: (kv[1], kv[0]))`. */
  predicate Before(m: map<string, int>, j: string, k: string)
    requires j in m && k in m
  {
    m[j] < m[k] || (m[j] == m[k] && StrLess(j, k))
  }

  /** `s` lists keys of `m`, each before the next in (value, key) order. */
  ghost predicate SortedKeys(m: map<string, int>, s: seq<string>) {
    && (forall i :: 0 <= i < |s| ==> s[i] in m)
    && (forall i, k :: 0 <= i < k < |s| ==> Before(m, s[i], s[k]))
  }

  function Elements(s: seq<string>): set<string> {
    set x | x in s
  }

  /** The keys of `m`, sorted by (value, key). */
  method SortKeys(m: map<string, int>) returns (s: seq<string>)
    ensures SortedKeys(m, s) && Elements(s) == m.Keys && |s| == |m|
  {
    hide Before;
    s := [];
    var todo := m.Keys;
    while todo != {}
      invariant todo <= m.Keys && SortedKeys(m, s) && Elements(s) == m.Keys - todo && |s| == |m.Keys - todo|
      decreases |todo|
    {
      var k :| k in todo;
      assert k !in Elements(s);
      s := InsertKey(m, s, k);
      OneFewer(m.Keys, todo, k);
      todo := todo - {k};
    }
    assert m.Keys - {} == m.Keys;
  }

  lemma OneFewer(all: set<string>, todo: set<string>, k: string)
    requires todo <= all && k in todo
    ensures all - (todo - {k}) == (all - todo) + {k} && |all - (todo - {k})| == |all - todo| + 1
  {
    assert all - (todo - {k}) == (all - todo) + {k};
  }

  method InsertKey(m: map<string, int>, s: seq<string>, k: string) returns (t: seq<string>)
    requires SortedKeys(m, s) && k in m && k !in s
    ensures SortedKeys(m, t) && Elements(t) == Elements(s) + {k} && |t| == |s| + 1
  {
    var i := 0;
    while i < |s| && Before(m, s[i], k)
      invariant i <= |s| && forall j :: 0 <= j < i ==> Before(m, s[j], k)
    {
      i := i + 1;
    }
    t := s[..i] + [k] + s[i..];
    RestIsBehind(m, s, i, k);
    hide Before;
    ElementsOfInsert(s, i, k);
  }

  lemma RestIsBehind(m: map<string, int>, s: seq<string>, i: nat, k: string)
    requires SortedKeys(m, s) && k in m && k !in s && i <= |s|
    requires i < |s| ==> !Before(m, s[i], k)
    ensures forall j :: i <= j < |s| ==> Before(m, k, s[j])
  {
    forall j | i <= j < |s|
      ensures Before(m, k, s[j])
    {
      StrLessTotal(k, s[i]);
      if j > i && m[k] == m[s[j]] {
        assert Before(m, s[i], s[j]);
        StrLessTransitive(k, s[i], s[j]);
      }
    }
  }

  lemma ElementsOfInsert(s: seq<string>, i: nat, k: string)
    requires i <= |s|
    ensures Elements(s[..i] + [k] + s[i..]) == Elements(s) + {k}
  {
    var t := s[..i] + [k] + s[i..];
    forall x
      ensures x in Elements(t) <==> x in Elements(s) + {k}
    {
      if x in s {
        var j :| 0 <= j < |s| && s[j] == x;
        assert t[if j < i then j else j + 1] == x;
      }
      assert t[i] == k;
    }
  }

  /** `b` is `m` cut down to its `n` earliest entries in (value, key) order. */
  ghost predicate IsEarliest(m: map<string, int>, n: nat, b: map<string, int>) {
    && b.Keys <= m.Keys && (forall k :: k in b ==> b[k] == m[k])
    && |b| == (if |m| <= n then |m| else n)
    && (forall k, d :: k in b && d in m && d !in b ==> Before(m, k, d))
  }

  /** The cut is unique, so `IsEarliest` says exactly which entries are kept. */
  lemma EarliestUnique(m: map<string, int>, n: nat, b: map<string, int>, c: map<string, int>)
    requires IsEarliest(m, n, b) && IsEarliest(m, n, c)
    ensures b == c
  {
    forall k | k in b
      ensures k in c
    {
      KeptInBoth(m, n, b, c, k);
    }
    SubsetSize(b.Keys, c.Keys);
  }

  lemma KeptInBoth(m: map<string, int>, n: nat, b: map<string, int>, c: map<string, int>, k: string)
    requires IsEarliest(m, n, b) && IsEarliest(m, n, c) && k in b
    ensures k in c
  {
    if k !in c {
      assert |c.Keys| == |b.Keys| && c.Keys <= m.Keys;
      forall d | d in m
        ensures !(d in c && d !in b)
      {
        KeptOnce(m, n, b, c, k, d);
      }
      hide IsEarliest;
      SameSizeDiffers(c.Keys, b.Keys, k);
      assert false;
    }
  }

  lemma KeptOnce(m: map<string, int>, n: nat, b: map<string, int>, c: map<string, int>, k: string, d: string)
    requires IsEarliest(m, n, b) && IsEarliest(m, n, c) && k in b && k !in c && d in m
    ensures !(d in c && d !in b)
  {
    if d in c && d !in b {
      if StrLess(k, d) && StrLess(d, k) {
        StrLessTransitive(k, d, k);
        StrLessIrreflexive(k);
      }
    }
  }

  lemma SameSizeDiffers(a: set<string>, b: set<string>, x: string)
    requires |a| == |b| && x in b && x !in a
    ensures exists y :: y in a && y !in b
  {
    if a <= b {
      SubsetSize(a + {x}, b);
      assert false;
    }
  }

  /** Taking the first `n` sorted keys is taking the `n` earliest entries. */
  lemma PrefixIsEarliest(m: map<string, int>, s: seq<string>, n: nat)
    requires SortedKeys(m, s) && Elements(s) == m.Keys && |s| == |m| && n <= |m|
    ensures IsEarliest(m, n, map k | k in s[..n] :: m[k])
  {
    var b := map k | k in s[..n] :: m[k];
    PrefixSize(m, s, n);
    assert b.Keys == Elements(s[..n]);
    hide Before, SortedKeys;
    forall k, d | k in b && d in m && d !in b
      ensures Before(m, k, d)
    {
      assert k in s[..n] && d !in s[..n] && d in Elements(s);
      hide Elements;
      PrefixIsBefore(m, s, n, k, d);
    }
  }

  lemma PrefixIsBefore(m: map<string, int>, s: seq<string>, n: nat, k: string, d: string)
    requires SortedKeys(m, s) && n <= |s| && k in s[..n] && d in Elements(s) && d !in s[..n]
    ensures k in m && d in m && Before(m, k, d)
  {
    hide Before;
    var i :| 0 <= i < n && s[..n][i] == k;
    assert s == s[..n] + s[n..] && d in s;
    var j :| 0 <= j < |s| - n && s[n..][j] == d;
    assert s[i] == k && s[n + j] == d;
  }

  lemma {:induction false} PrefixSize(m: map<string, int>, s: seq<string>, n: nat)
    requires SortedKeys(m, s) && n <= |s|
    ensures |Elements(s[..n])| == n
  {
    if n > 0 {
      PrefixSize(m, s, n - 1);
      LastIsNew(m, s, n);
      assert s[..n] == s[..n - 1] + [s[n - 1]];
      assert Elements(s[..n]) == Elements(s[..n - 1]) + {s[n - 1]};
      hide SortedKeys;
    } else {
      assert Elements(s[..0]) == {};
    }
  }

  lemma LastIsNew(m: map<string, int>, s: seq<string>, n: nat)
    requires SortedKeys(m, s) && 0 < n <= |s|
    ensures s[n - 1] !in s[..n - 1]
  {
    StrLessIrreflexive(s[n - 1]);
    forall i | 0 <= i < n - 1
      ensures s[i] != s[n - 1]
    {
      assert Before(m, s[i], s[n - 1]);
    }
  }

  /** Strings in ascending order. */
  ghost predicate Ascending(s: seq<string>) {
    forall i, k :: 0 <= i < k < |s| ==> StrLess(s[i], s[k])
  }

  lemma AscendingIsDistinct(s: seq<string>)
    requires Ascending(s)
    ensures forall i, k :: 0 <= i < k < |s| ==> s[i] != s[k]
  {
    forall i, k | 0 <= i < k < |s|
      ensures s[i] != s[k]
    {
      StrLessIrreflexive(s[i]);
    }
  }

  /** `sorted(names)` */
  method SortNames(names: set<string>) returns (s: seq<string>)
    ensures Ascending(s) && Elements(s) == names && |s| == |names|
  {
    var m := map n | n in names :: 0;
    assert m.Keys == names;
    s := SortKeys(m);
    forall i, k | 0 <= i < k < |s|
      ensures StrLess(s[i], s[k])
    {
      assert Before(m, s[i], s[k]);
    }
  }

  /** A set of names can be put in ascending order in one way only. */
  lemma {:induction false} AscendingIsUnique(s: seq<string>, t: seq<string>)
    requires Ascending(s) && Ascending(t) && Elements(s) == Elements(t)
    ensures s == t
  {
    NoElements(s);
    NoElements(t);
    if s != [] {
      SameFirst(s, t);
      ElementsOfTail(s);
      ElementsOfTail(t);
      AscendingIsUnique(s[1..], t[1..]);
      assert s == [s[0]] + s[1..] && t == [t[0]] + t[1..];
    }
  }

  lemma NoElements(s: seq<string>)
    ensures s == [] <==> Elements(s) == {}
  {
    assert s != [] ==> s[0] in Elements(s);
  }

  lemma SameFirst(s: seq<string>, t: seq<string>)
    requires Ascending(s) && Ascending(t) && Elements(s) == Elements(t) && s != [] && t != []
    ensures s[0] == t[0]
  {
    assert s[0] in Elements(t) && t[0] in Elements(s);
    var i :| 0 <= i < |t| && t[i] == s[0];
    var k :| 0 <= k < |s| && s[k] == t[0];
    if i > 0 && k > 0 {
      StrLessTransitive(t[0], t[i], t[0]);
      StrLessIrreflexive(t[0]);
    }
  }

  lemma ElementsOfTail(s: seq<string>)
    requires s != [] && Ascending(s)
    ensures Elements(s[1..]) == Elements(s) - {s[0]}
  {
    AscendingIsDistinct(s);
  }
}
