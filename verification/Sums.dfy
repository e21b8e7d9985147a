/** Sums over sequences of integers, used to count the configs of a cluster. */
module Sums {

  function Sum(s: seq<int>): int {
    if s == [] then 0 else s[0] + Sum(s[1..])
  }

  function Squares(s: seq<int>): int {
    if s == [] then 0 else s[0] * s[0] + Squares(s[1..])
  }

  lemma {:induction false} SumUpdate(s: seq<int>, i: nat, v: int)
    requires i < |s|
    ensures Sum(s[i := v]) == Sum(s) - s[i] + v
  {
    if i == 0 {
      assert s[i := v][1..] == s[1..];
    } else {
      assert s[i := v][1..] == s[1..][i - 1 := v];
      SumUpdate(s[1..], i - 1, v);
    }
  }

  lemma {:induction false} SquaresUpdate(s: seq<int>, i: nat, v: int)
    requires i < |s|
    ensures Squares(s[i := v]) == Squares(s) - s[i] * s[i] + v * v
  {
    if i == 0 {
      assert s[i := v][1..] == s[1..];
    } else {
      assert s[i := v][1..] == s[1..][i - 1 := v];
      SquaresUpdate(s[1..], i - 1, v);
    }
  }

  /** n times a, by repeated addition: products stay out of the proofs that compare sums. */
  function Times(n: nat, a: int): int {
    if n == 0 then 0 else Times(n - 1, a) + a
  }

  lemma {:induction false} TimesIsProduct(n: nat, a: int)
    ensures Times(n, a) == n * a
  {
    if n > 0 {
      TimesIsProduct(n - 1, a);
    }
  }

  lemma {:induction false} TimesNonNegative(n: nat, a: nat)
    ensures Times(n, a) >= 0
  {
    if n > 0 {
      TimesNonNegative(n - 1, a);
    }
  }

  lemma {:induction false} TimesGrows(k: nat, n: nat, a: nat)
    requires k <= n
    ensures Times(k, a) <= Times(n, a)
  {
    if k < n {
      TimesGrows(k, n - 1, a);
    }
  }

  lemma {:induction false} TimesMonotone(n: nat, a: int, b: int)
    requires a <= b
    ensures Times(n, a) <= Times(n, b)
  {
    if n > 0 {
      TimesMonotone(n - 1, a, b);
    }
  }

  lemma {:induction false} TimesAddsOne(n: nat, a: int)
    ensures Times(n, a + 1) == Times(n, a) + n
  {
    if n > 0 {
      TimesAddsOne(n - 1, a);
    }
  }

  lemma {:induction false} SumAtLeast(s: seq<int>, low: int)
    requires forall i :: 0 <= i < |s| ==> s[i] >= low
    ensures Sum(s) >= Times(|s|, low)
  {
    if s != [] {
      SumAtLeast(s[1..], low);
    }
  }

  lemma {:induction false} SumAtMost(s: seq<int>, high: int)
    requires forall i :: 0 <= i < |s| ==> s[i] <= high
    ensures Sum(s) <= Times(|s|, high)
  {
    if s != [] {
      SumAtMost(s[1..], high);
    }
  }

  /** How many entries are at least `low`. */
  function CountAtLeast(s: seq<int>, low: int): nat {
    if s == [] then 0 else (if s[0] >= low then 1 else 0) + CountAtLeast(s[1..], low)
  }

  /** Entries that gained one wherever the old entry was at least `low`. */
  lemma {:induction false} SumWithGains(s: seq<int>, before: seq<int>, low: int)
    requires |s| == |before| && forall i :: 0 <= i < |s| ==> s[i] >= if before[i] >= low then low + 1 else low
    ensures Sum(s) >= Times(|s|, low) + CountAtLeast(before, low)
  {
    if s != [] {
      SumWithGains(s[1..], before[1..], low);
    }
  }

  lemma {:induction false} SumMonotone(s: seq<int>, u: seq<int>)
    requires |s| == |u| && forall i :: 0 <= i < |s| ==> s[i] <= u[i]
    ensures Sum(s) <= Sum(u)
  {
    if s != [] {
      SumMonotone(s[1..], u[1..]);
    }
  }

  lemma {:induction false} SumOfSame(s: seq<int>, c: int)
    requires forall i :: 0 <= i < |s| ==> s[i] == c
    ensures Sum(s) == Times(|s|, c)
  {
    if s != [] {
      SumOfSame(s[1..], c);
    }
  }

  /** All entries are `low`, and one more from the a-th to the b-th. */
  function Ramp(n: nat, low: int, a: nat, b: nat): seq<int> {
    seq(n, i => if a <= i < b then low + 1 else low)
  }

  lemma {:induction false} RampSum(n: nat, low: int, a: nat, b: nat)
    requires a <= b <= n
    ensures Sum(Ramp(n, low, a, b)) == Times(n, low) + (b - a)
  {
    if a == b {
      SumOfSame(Ramp(n, low, a, b), low);
    } else {
      RampSum(n, low, a, b - 1);
      assert Ramp(n, low, a, b) == Ramp(n, low, a, b - 1)[b - 1 := low + 1];
      SumUpdate(Ramp(n, low, a, b - 1), b - 1, low + 1);
    }
  }

  /** Where the entries that are at least `low` begin in an ascending list. */
  function FirstAt(s: seq<int>, low: int): int {
    |s| - CountAtLeast(s, low)
  }

  lemma {:induction false} Boundary(s: seq<int>, low: int)
    requires forall i, j :: 0 <= i <= j < |s| ==> s[i] <= s[j]
    ensures 0 <= FirstAt(s, low) <= |s|
    ensures forall i :: 0 <= i < |s| ==> (s[i] >= low <==> i >= FirstAt(s, low))
  {
    if s != [] {
      if s[0] >= low {
        AllCount(s, low);
      } else {
        Boundary(s[1..], low);
        forall i | 0 <= i < |s| ensures s[i] >= low <==> i >= FirstAt(s, low) {
          if i > 0 { assert s[i] == s[1..][i - 1]; } else { assert FirstAt(s, low) == FirstAt(s[1..], low) + 1; }
        }
      }
    }
  }

  lemma {:induction false} AllCount(s: seq<int>, low: int)
    requires forall i :: 0 <= i < |s| ==> s[i] >= low
    ensures CountAtLeast(s, low) == |s|
  {
    if s != [] {
      AllCount(s[1..], low);
    }
  }

  lemma {:induction false} SquaresBound(s: seq<int>)
    requires forall i :: 0 <= i < |s| ==> s[i] >= 0
    ensures 0 <= Sum(s)
    ensures 0 <= Squares(s) <= Sum(s) * Sum(s)
  {
    if s != [] {
      SquaresBound(s[1..]);
      var a, b := s[0], Sum(s[1..]);
      assert (a + b) * (a + b) == a * a + b * b + 2 * (a * b);
      assert a * b >= 0;
    }
  }

  /** The sum of f over a list of hosts. */
  ghost function SumOver<T>(f: T -> int, xs: seq<T>): int {
    if xs == [] then 0 else f(xs[0]) + SumOver(f, xs[1..])
  }

  ghost predicate Distinct<T>(xs: seq<T>) {
    forall i, j :: 0 <= i < j < |xs| ==> xs[i] != xs[j]
  }

  ghost function Elements<T>(xs: seq<T>): set<T> {
    set x | x in xs
  }

  lemma SomeMember<T>(s: set<T>) returns (x: T)
    requires s != {}
    ensures x in s
  {
    x :| x in s;
  }

  /** The first i elements of a list, as a set. */
  ghost function Firsts<T>(xs: seq<T>, i: nat): set<T>
    requires i <= |xs|
  {
    if i == 0 then {} else Firsts(xs, i - 1) + {xs[i - 1]}
  }

  lemma {:induction false} FirstsMembers<T>(xs: seq<T>, i: nat)
    requires i <= |xs|
    ensures forall x :: x in Firsts(xs, i) <==> x in xs[..i]
  {
    if i > 0 {
      FirstsMembers(xs, i - 1);
      assert xs[..i] == xs[..i - 1] + [xs[i - 1]];
    }
  }

  /** The first i elements of a list do not repeat. */
  ghost predicate NoRepeats<T>(xs: seq<T>, i: nat)
    requires i <= |xs|
  {
    i == 0 || (NoRepeats(xs, i - 1) && xs[i - 1] !in Firsts(xs, i - 1))
  }

  /** The list is one way to walk through the set. */
  ghost predicate Walk<T>(xs: seq<T>, s: set<T>) {
    NoRepeats(xs, |xs|) && Firsts(xs, |xs|) == s
  }

  lemma {:induction false} FirstsPrefix<T>(xs: seq<T>, ys: seq<T>, i: nat)
    requires i <= |xs| && xs <= ys
    ensures Firsts(xs, i) == Firsts(ys, i) && NoRepeats(xs, i) == NoRepeats(ys, i)
  {
    if i > 0 {
      FirstsPrefix(xs, ys, i - 1);
    }
  }

  lemma WalkAppend<T>(xs: seq<T>, s: set<T>, x: T)
    requires Walk(xs, s) && x !in s
    ensures Walk(xs + [x], s + {x})
  {
    FirstsPrefix(xs, xs + [x], |xs|);
  }

  /** At every place of a walk the next element is new, and belongs to the set. */
  lemma {:induction false} WalkStep<T>(xs: seq<T>, i: nat, k: nat)
    requires i < k <= |xs| && NoRepeats(xs, k)
    ensures Firsts(xs, i) <= Firsts(xs, k) && xs[i] in Firsts(xs, k) && xs[i] !in Firsts(xs, i)
  {
    if i < k - 1 {
      WalkStep(xs, i, k - 1);
    }
  }

  lemma {:induction false} WalkPrefix<T>(xs: seq<T>, i: nat, k: nat)
    requires i <= k <= |xs| && NoRepeats(xs, k)
    ensures NoRepeats(xs, i)
  {
    if i < k {
      WalkPrefix(xs, i, k - 1);
    }
  }

  lemma {:induction false} FirstsUpTo<T>(xs: seq<T>, i: nat, k: nat)
    requires i <= k <= |xs|
    ensures Firsts(xs, i) <= Firsts(xs, k)
  {
    if i < k {
      FirstsUpTo(xs, i, k - 1);
    }
  }

  lemma {:induction false} WalkSize<T>(xs: seq<T>, i: nat)
    requires i <= |xs| && NoRepeats(xs, i)
    ensures |Firsts(xs, i)| == i
  {
    if i > 0 {
      WalkSize(xs, i - 1);
    }
  }

  lemma WalkPart<T>(xs: seq<T>, s: set<T>, i: nat)
    requires Walk(xs, s) && i <= |xs|
    ensures Firsts(xs, i) <= s && |Firsts(xs, i)| == i && NoRepeats(xs, i)
  {
    FirstsUpTo(xs, i, |xs|);
    WalkPrefix(xs, i, |xs|);
    WalkSize(xs, i);
  }

  /** The first elements of a walk are themselves a walk, through a part of the set. */
  lemma WalkFirst<T>(xs: seq<T>, s: set<T>, i: nat)
    requires Walk(xs, s) && i <= |xs|
    ensures NoRepeats(xs[..i], i) && Firsts(xs[..i], i) <= s
  {
    FirstsPrefix(xs[..i], xs, i);
    WalkPart(xs, s, i);
  }

  /** The list names every member of the set once. */
  ghost predicate Listing<T>(xs: seq<T>, s: set<T>) {
    Distinct(xs) && Elements(xs) == s
  }

  lemma WalkIsListing<T>(xs: seq<T>, s: set<T>)
    requires Walk(xs, s)
    ensures Listing(xs, s)
  {
    FirstsMembers(xs, |xs|);
    assert xs[..|xs|] == xs;
    forall i, j | 0 <= i < j < |xs| ensures xs[i] != xs[j] {
      WalkPrefix(xs, j + 1, |xs|);
      WalkStep(xs, i, j);
    }
  }

  /** The members of a set, in the order an iteration happens to yield them. */
  method Listed<T(==)>(m: set<T>) returns (members: seq<T>)
    ensures Walk(members, m)
  {
    members := [];
    var rest := m;
    while rest != {}
      invariant rest <= m && Walk(members, m - rest)
    {
      var k :| k in rest;
      WalkAppend(members, m - rest, k);
      members := members + [k];
      rest := rest - {k};
      assert m - rest == m - (rest + {k}) + {k};
    }
  }

  lemma {:induction false} SumOverExtract<T>(f: T -> int, xs: seq<T>, i: nat)
    requires i < |xs|
    ensures SumOver(f, xs) == f(xs[i]) + SumOver(f, xs[..i] + xs[i + 1..])
  {
    var rest := xs[..i] + xs[i + 1..];
    if i == 0 {
      assert rest == xs[1..];
    } else {
      SumOverExtract(f, xs[1..], i - 1);
      assert rest[0] == xs[0];
      assert rest[1..] == xs[1..][..i - 1] + xs[1..][i..];
    }
  }

  lemma DistinctWithout<T>(xs: seq<T>, i: nat)
    requires Distinct(xs) && i < |xs|
    ensures Distinct(xs[..i] + xs[i + 1..])
    ensures Elements(xs[..i] + xs[i + 1..]) == Elements(xs) - {xs[i]}
  {
    var rest := xs[..i] + xs[i + 1..];
    forall x ensures x in Elements(rest) <==> x in Elements(xs) - {xs[i]} {
      if x in rest {
        var j :| 0 <= j < |rest| && rest[j] == x;
        assert x == xs[if j < i then j else j + 1];
      }
      if x in xs && x != xs[i] {
        var j :| 0 <= j < |xs| && xs[j] == x;
        assert x == rest[if j < i then j else j - 1];
      }
    }
  }

  /** Two listings of the same distinct elements give the same sum. */
  lemma {:induction false} SumOverReordered<T>(f: T -> int, xs: seq<T>, ys: seq<T>)
    requires Distinct(xs) && Distinct(ys) && Elements(xs) == Elements(ys)
    ensures SumOver(f, xs) == SumOver(f, ys)
    decreases |xs|
  {
    DistinctLength(xs);
    DistinctLength(ys);
    if xs != [] {
      assert xs[0] in Elements(xs);
      assert xs[0] in Elements(ys);
      var i :| 0 <= i < |ys| && ys[i] == xs[0];
      DistinctWithout(xs, 0);
      DistinctWithout(ys, i);
      assert xs[..0] + xs[0 + 1..] == xs[1..];
      SumOverExtract(f, ys, i);
      SumOverReordered(f, xs[1..], ys[..i] + ys[i + 1..]);
    }
  }

  /** Distinct listings of one set have the same length, its cardinality. */
  lemma {:induction false} DistinctLength<T>(xs: seq<T>)
    requires Distinct(xs)
    ensures |Elements(xs)| == |xs|
  {
    if xs != [] {
      DistinctLength(xs[1..]);
      assert Elements(xs) == {xs[0]} + Elements(xs[1..]);
      assert xs[0] !in Elements(xs[1..]);
    }
  }
}
