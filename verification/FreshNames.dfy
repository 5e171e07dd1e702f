/** Searching numbered names for one that is not taken, and why the search ends. */
module FreshNames {

  function Digit(d: nat): char
    requires d < 10
  {
    "0123456789"[d]
  }

  function Decimal(n: nat): string {
    if n < 10 then [Digit(n)] else Decimal(n / 10) + [Digit(n % 10)]
  }

  /** The number a string of digits denotes. */
  ghost function Denotes(s: string): int {
    if s == "" then 0 else 10 * Denotes(s[..|s| - 1]) + s[|s| - 1] as int - '0' as int
  }

  /** A number is written in decimal, without leading zeros. */
  lemma {:induction false} DecimalDenotes(n: nat)
    ensures Denotes(Decimal(n)) == n && (n > 0 ==> Decimal(n)[0] != '0')
    ensures forall i :: 0 <= i < |Decimal(n)| ==> '0' <= Decimal(n)[i] <= '9'
  {
    if n < 10 {
      assert Decimal(n)[..0] == "";
    } else {
      var p := Decimal(n / 10);
      DecimalDenotes(n / 10);
      DecimalIsDigits(n / 10);
      assert Decimal(n)[..|p|] == p;
    }
  }

  lemma DigitIsInjective(a: nat, b: nat)
    requires a < 10 && b < 10 && Digit(a) == Digit(b)
    ensures a == b
  {
  }

  lemma {:induction false} DecimalIsDigits(n: nat)
    ensures Decimal(n) != "" && (n >= 10 ==> |Decimal(n)| > 1)
    ensures '0' <= Decimal(n)[|Decimal(n)| - 1] <= '9'
  {
    if n >= 10 { DecimalIsDigits(n / 10); }
  }

  /** Different numbers are written differently. */
  lemma {:induction false} DecimalIsInjective(a: nat, b: nat)
    requires Decimal(a) == Decimal(b)
    ensures a == b
  {
    DecimalIsDigits(a);
    DecimalIsDigits(b);
    if a >= 10 {
      var p, q := Decimal(a / 10), Decimal(b / 10);
      assert Decimal(a)[..|p|] == p && Decimal(b)[..|q|] == q;
      assert Decimal(a)[|p|] == Decimal(b)[|q|];
      DecimalIsInjective(a / 10, b / 10);
      DigitIsInjective(a % 10, b % 10);
    } else {
      DigitIsInjective(a, b);
    }
  }

  /** Index of the last dot, or the length if there is none. */
  function LastDot(s: string): (i: nat)
    ensures i <= |s| && (i < |s| ==> s[i] == '.')
    ensures forall j :: i < j < |s| ==> s[j] != '.'
    ensures i == |s| ==> forall j :: 0 <= j < |s| ==> s[j] != '.'
  {
    if s == "" then 0
    else if s[|s| - 1] == '.' then |s| - 1
    else
      var i := LastDot(s[..|s| - 1]);
      if i == |s| - 1 then |s| else i
  }

  /** A sequence of candidate names without repetition. */
  ghost predicate Distinct(name: nat -> string) {
    forall i, j :: 0 <= i < j ==> name(i) != name(j)
  }

  ghost predicate AllTaken(name: nat -> string, used: set<string>, n: nat) {
    forall i :: 0 <= i < n ==> name(i) in used
  }

  /** Distinct names that are all taken are no more than the names in use. */
  lemma {:induction false} TakenAreFew(name: nat -> string, used: set<string>, n: nat)
    requires Distinct(name) && AllTaken(name, used, n)
    ensures n <= |used|
  {
    if n > 0 {
      var last := name(n - 1);
      assert AllTaken(name, used - {last}, n - 1);
      TakenAreFew(name, used - {last}, n - 1);
    }
  }

  /** `k` is the first candidate not in use. */
  ghost predicate IsFirstFree(name: nat -> string, used: set<string>, k: nat) {
    name(k) !in used && AllTaken(name, used, k)
  }

  lemma FirstFreeIsUnique(name: nat -> string, used: set<string>, j: nat, k: nat)
    requires IsFirstFree(name, used, j) && IsFirstFree(name, used, k)
    ensures j == k
  {
  }

  ghost function FirstFree(name: nat -> string, used: set<string>): (k: nat)
    requires Distinct(name)
    ensures IsFirstFree(name, used, k)
  {
    FreeFrom(name, used, 0)
  }

  ghost function FreeFrom(name: nat -> string, used: set<string>, n: nat): (k: nat)
    requires Distinct(name) && AllTaken(name, used, n)
    ensures IsFirstFree(name, used, k)
    decreases |used| - n
  {
    if name(n) in used then
      TakenAreFew(name, used, n + 1);
      FreeFrom(name, used, n + 1)
    else n
  }

  /** The search loop `while candidate in used`: it ends because distinct candidates cannot all be in a finite set. */
  method FindFree(name: nat -> string, used: set<string>) returns (k: nat)
    requires Distinct(name)
    ensures k == FirstFree(name, used)
  {
    k := 0;
    TakenAreFew(name, used, 0);
    while name(k) in used
      invariant AllTaken(name, used, k)
      invariant k <= |used|
      decreases |used| - k
    {
      TakenAreFew(name, used, k + 1);
      k := k + 1;
    }
    FirstFreeIsUnique(name, used, k, FirstFree(name, used));
  }

  /** A name split before a suffix: `k` is written between the two, and 0 leaves the name as it is. */
  function Numbered(stem: string, suffix: string, k: nat): string {
    if k == 0 then stem + suffix else stem + "." + Decimal(k) + suffix
  }

  function NumberedNames(stem: string, suffix: string): nat -> string {
    (k: nat) => Numbered(stem, suffix, k)
  }

  lemma NumberedIsDistinct(stem: string, suffix: string)
    ensures Distinct(NumberedNames(stem, suffix))
  {
    forall i, j | 0 <= i < j
      ensures NumberedNames(stem, suffix)(i) != NumberedNames(stem, suffix)(j)
    {
      TwoNumbered(stem, suffix, i, j);
    }
  }

  lemma TwoNumbered(stem: string, suffix: string, i: nat, j: nat)
    requires i < j
    ensures Numbered(stem, suffix, i) != Numbered(stem, suffix, j)
  {
    DecimalIsDigits(j);
    if i > 0 && Numbered(stem, suffix, i) == Numbered(stem, suffix, j) {
      BetweenIsInjective(stem + ".", suffix, Decimal(i), Decimal(j));
      DecimalIsInjective(i, j);
    }
  }

  lemma BetweenIsInjective(pre: string, post: string, x: string, y: string)
    requires pre + x + post == pre + y + post
    ensures x == y
  {
    var s, t := pre + x + post, pre + y + post;
    assert |x| == |y|;
    assert s[|pre|..|pre| + |x|] == x && t[|pre|..|pre| + |y|] == y;
  }
}
