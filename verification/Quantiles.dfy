/**
 Quantiles read off a compact histogram, refining the element at a rank of the fully
 expanded sorted list.  Arithmetic is exact.
 */
module Quantiles {
  import opened Sums

  type Hist = map<real, real>

  predicate IsLeast(k: real, keys: set<real>) {
    k in keys && forall x :: x in keys ==> k <= x
  }

  lemma LeastOfMore(k: real, m: real, keys: set<real>)
    requires k in keys && IsLeast(m, keys - {k})
    ensures IsLeast(if k <= m then k else m, keys)
  {
    var least := if k <= m then k else m;
    forall x | x in keys ensures least <= x {
      if x != k { assert x in keys - {k}; }
    }
  }

  lemma {:induction false} FindLeast(keys: set<real>) returns (least: real)
    requires keys != {}
    ensures IsLeast(least, keys)
    decreases |keys|
  {
    var k := SomeMember(keys);
    if keys - {k} == {} {
      assert keys == {k};
      least := k;
    } else {
      var m := FindLeast(keys - {k});
      LeastOfMore(k, m, keys);
      least := if k <= m then k else m;
    }
  }

  lemma LeastExists(keys: set<real>)
    requires keys != {}
    ensures exists k :: IsLeast(k, keys)
  {
    var least := FindLeast(keys);
  }

  ghost function Least(keys: set<real>): (k: real)
    requires keys != {}
    ensures IsLeast(k, keys)
  {
    LeastExists(keys);
    var k :| IsLeast(k, keys);
    k
  }

  /** The keys in ascending order. */
  ghost function Ascending(keys: set<real>): seq<real>
    decreases |keys|
  {
    if keys == {} then [] else [Least(keys)] + Ascending(keys - {Least(keys)})
  }

  function CountAt(t: Hist, k: real): real {
    if k in t then t[k] else 0.0
  }

  /** The sum of the counts of the listed keys. */
  function Weight(keys: seq<real>, t: Hist): real {
    if keys == [] then 0.0 else CountAt(t, keys[0]) + Weight(keys[1..], t)
  }

  /** The sum of all counts. */
  ghost function WeightOf(t: Hist): real {
    Weight(Ascending(t.Keys), t)
  }

  ghost predicate Sorted(s: seq<real>) {
    forall i, j :: 0 <= i <= j < |s| ==> s[i] <= s[j]
  }

  ghost predicate StrictlySorted(s: seq<real>) {
    forall i, j :: 0 <= i < j < |s| ==> s[i] < s[j]
  }

  lemma {:induction false} AscendingMembers(keys: set<real>, k: real)
    ensures k in Ascending(keys) <==> k in keys
    decreases |keys|
  {
    if keys != {} {
      AscendingMembers(keys - {Least(keys)}, k);
    }
  }

  lemma {:induction false} AscendingIsSorted(keys: set<real>)
    ensures StrictlySorted(Ascending(keys))
    decreases |keys|
  {
    if keys != {} {
      var least := Least(keys);
      var rest := Ascending(keys - {least});
      AscendingIsSorted(keys - {least});
      forall i | 0 <= i < |rest| ensures least < rest[i] {
        AscendingMembers(keys - {least}, rest[i]);
        assert rest[i] in keys - {least};
      }
    }
  }

  /** Python's int(): truncation towards zero. */
  function Trunc(x: real): int {
    if x >= 0.0 then x.Floor else -((-x).Floor)
  }

  function Index(total: real, q: real): int {
    Trunc(total / 100.0 * q)
  }

  /** The first key at which the running count reaches the index; `value` if there is none. */
  function Scan(keys: seq<real>, t: Hist, index: int, sumidx: real, value: real): real {
    if keys == [] then value
    else
      var sum := sumidx + CountAt(t, keys[0]);
      if index as real <= sum then keys[0] else Scan(keys[1..], t, index, sum, value)
  }

  /** The q-quantile of a histogram, whatever was found for the quantile before it. */
  ghost function QuantileAt(t: Hist, total: real, q: real): real
    requires t != map[]
  {
    var keys := Ascending(t.Keys);
    if q < 100.0 then Scan(keys, t, Index(total, q), 0.0, keys[0]) else keys[|keys| - 1]
  }

  /** The loop's value after the first k quantiles: one that no key reaches leaves it as it was. */
  ghost function ValueAfter(quantile: seq<real>, t: Hist, total: real, k: nat): real
    requires t != map[] && k <= |quantile|
  {
    var keys := Ascending(t.Keys);
    if k == 0 then keys[0]
    else if quantile[k - 1] < 100.0 then
      Scan(keys, t, Index(total, quantile[k - 1]), 0.0, ValueAfter(quantile, t, total, k - 1))
    else keys[|keys| - 1]
  }

  ghost function QuantilesOf(quantile: seq<real>, factor: real, t: Hist, total: real): seq<real>
    requires t != map[]
  {
    seq(|quantile|, i requires 0 <= i < |quantile| => factor * ValueAfter(quantile, t, total, i + 1))
  }

  ghost predicate Countable(t: Hist) {
    forall k :: k in t ==> t[k] >= 0.0
  }

  lemma {:induction false} WeightNonNegative(keys: seq<real>, t: Hist)
    requires Countable(t)
    ensures Weight(keys, t) >= 0.0
  {
    if keys != [] {
      WeightNonNegative(keys[1..], t);
    }
  }

  lemma SameProduct(total: real, q: real)
    ensures total / 100.0 * q == total * q / 100.0
  {}

  lemma IndexWithinTotal(total: real, q: real)
    requires total >= 0.0 && q <= 100.0
    ensures Index(total, q) as real <= total
  {
    var x := total / 100.0;
    assert x >= 0.0 && x * 100.0 == total;
    assert x * q <= x * 100.0 by {
      assert x * (100.0 - q) >= 0.0;
    }
  }

  lemma IndexGrows(total: real, q: real, r: real)
    requires total >= 0.0 && q <= r
    ensures Index(total, q) <= Index(total, r)
  {
    var x := total / 100.0;
    assert x * q <= x * r by {
      assert x * (r - q) >= 0.0;
    }
  }

  /** While the index is within the total the scan stops at some key: the inner loop always breaks. */
  lemma {:induction false} ScanStops(keys: seq<real>, t: Hist, index: int, sumidx: real, value: real, other: real)
    requires keys != [] && index as real <= sumidx + Weight(keys, t)
    ensures Scan(keys, t, index, sumidx, value) in keys
    ensures Scan(keys, t, index, sumidx, value) == Scan(keys, t, index, sumidx, other)
  {
    var sum := sumidx + CountAt(t, keys[0]);
    if index as real > sum {
      ScanStops(keys[1..], t, index, sum, value, other);
    }
  }

  /** The counts of the keys up to the i-th. */
  function CountsUpTo(keys: seq<real>, t: Hist, i: nat): real
    requires i < |keys|
  {
    Weight(keys[..i + 1], t)
  }

  /** The counts up to the j-th key are the first that make up what is wanted. */
  ghost predicate FirstToReach(keys: seq<real>, t: Hist, wanted: real, j: nat) {
    j < |keys| && wanted <= CountsUpTo(keys, t, j) && forall i: nat :: i < j ==> CountsUpTo(keys, t, i) < wanted
  }

  lemma CountsWithFirst(keys: seq<real>, t: Hist, i: nat)
    requires i < |keys|
    ensures CountsUpTo(keys, t, i) == CountAt(t, keys[0]) + if i == 0 then 0.0 else CountsUpTo(keys[1..], t, i - 1)
  {
    var front, rest := keys[..i + 1], keys[1..];
    assert front[0] == keys[0] && front[1..] == rest[..i];
    assert CountsUpTo(keys, t, i) == CountAt(t, front[0]) + Weight(front[1..], t);
    if i > 0 {
      assert CountsUpTo(rest, t, i - 1) == Weight(rest[..i], t);
    }
  }

  /** One key in front of a list takes its count off what the others have to make up. */
  lemma FirstInRest(keys: seq<real>, t: Hist, wanted: real, j: nat)
    requires keys != [] && CountAt(t, keys[0]) < wanted && FirstToReach(keys[1..], t, wanted - CountAt(t, keys[0]), j)
    ensures FirstToReach(keys, t, wanted, j + 1)
  {
    CountsWithFirst(keys, t, j + 1);
    forall i: nat | i < j + 1 ensures CountsUpTo(keys, t, i) < wanted {
      CountsWithFirst(keys, t, i);
      if i > 0 { assert CountsUpTo(keys[1..], t, i - 1) < wanted - CountAt(t, keys[0]); }
    }
  }

  lemma {:induction false} ScanIsFirst(keys: seq<real>, t: Hist, index: int, sumidx: real, value: real) returns (j: nat)
    requires keys != [] && index as real <= sumidx + Weight(keys, t)
    ensures FirstToReach(keys, t, index as real - sumidx, j) && Scan(keys, t, index, sumidx, value) == keys[j]
  {
    var sum := sumidx + CountAt(t, keys[0]);
    if index as real <= sum {
      CountsWithFirst(keys, t, 0);
      j := 0;
    } else {
      var m := ScanIsFirst(keys[1..], t, index, sum, value);
      assert index as real - sum == index as real - sumidx - CountAt(t, keys[0]);
      FirstInRest(keys, t, index as real - sumidx, m);
      j := m + 1;
    }
  }

  lemma IndexRoundsDown(total: real, q: real)
    requires total >= 0.0 && q >= 0.0
    ensures Index(total, q) == (total * q / 100.0).Floor
  {
    SameProduct(total, q);
    assert total * q >= 0.0;
  }

  lemma QuantileReaches(t: Hist, total: real, q: real, wanted: int) returns (j: nat)
    requires t != map[] && q < 100.0 && total == WeightOf(t) && wanted as real <= total && wanted == Index(total, q)
    ensures FirstToReach(Ascending(t.Keys), t, wanted as real, j) && QuantileAt(t, total, q) == Ascending(t.Keys)[j]
  {
    var keys := Ascending(t.Keys);
    assert wanted as real - 0.0 == wanted as real;
    j := ScanIsFirst(keys, t, wanted, 0.0, keys[0]);
  }

  /**
   For counts that are not negative, whole or not: the answer for a quantile below 100 is the first key, in
   ascending order, at which the counts so far make up the share of the total, rounded down.
   */
  lemma QuantileIsFirst(t: Hist, total: real, q: real) returns (j: nat)
    requires t != map[] && Countable(t) && 0.0 <= q < 100.0 && total == WeightOf(t)
    ensures FirstToReach(Ascending(t.Keys), t, (total * q / 100.0).Floor as real, j)
    ensures QuantileAt(t, total, q) == Ascending(t.Keys)[j]
  {
    WeightNonNegative(Ascending(t.Keys), t);
    IndexWithinTotal(total, q);
    IndexRoundsDown(total, q);
    j := QuantileReaches(t, total, q, (total * q / 100.0).Floor);
  }

  // ----- the fully expanded list

  function Repeat(k: real, n: nat): seq<real> {
    seq(n, _ => k)
  }

  /** Every key as often as it was counted, for whole counts. */
  function Expanded(keys: seq<real>, t: Hist): seq<real>
    requires WholeCounts(t)
  {
    if keys == [] then [] else Repeat(keys[0], CountAt(t, keys[0]).Floor) + Expanded(keys[1..], t)
  }

  ghost predicate WholeCounts(t: Hist) {
    forall k :: k in t ==> t[k] >= 1.0 && t[k] == t[k].Floor as real
  }

  ghost function ExpandedList(t: Hist): seq<real>
    requires WholeCounts(t)
  {
    Expanded(Ascending(t.Keys), t)
  }

  function Max(a: int, b: int): int { if a < b then b else a }

  lemma {:induction false} ExpandedSize(keys: seq<real>, t: Hist)
    requires WholeCounts(t)
    ensures |Expanded(keys, t)| as real == Weight(keys, t)
  {
    if keys != [] {
      ExpandedSize(keys[1..], t);
    }
  }

  lemma {:induction false} ExpandedMembers(keys: seq<real>, t: Hist, i: nat)
    requires WholeCounts(t)
    requires i < |Expanded(keys, t)|
    ensures Expanded(keys, t)[i] in keys
  {
    var n := CountAt(t, keys[0]).Floor;
    if i >= n {
      ExpandedMembers(keys[1..], t, i - n);
    }
  }

  /** The scan over the compact histogram returns the element of the given rank. */
  lemma {:induction false} ScanIsRank(keys: seq<real>, t: Hist, index: int, passed: nat, value: real)
    requires WholeCounts(t) && forall k :: k in keys ==> k in t
    requires passed < Max(1, index) && Max(1, index) - passed <= |Expanded(keys, t)|
    ensures Scan(keys, t, index, passed as real, value) == Expanded(keys, t)[Max(1, index) - passed - 1]
  {
    assert keys != [] && keys[0] in keys;
    var n := CountAt(t, keys[0]).Floor;
    assert passed as real + CountAt(t, keys[0]) == (passed + n) as real;
    if !(index as real <= passed as real + CountAt(t, keys[0])) {
      ScanIsRank(keys[1..], t, index, passed + n, value);
    }
  }

  lemma ListSize(t: Hist)
    requires WholeCounts(t)
    ensures |ExpandedList(t)| as real == WeightOf(t) >= 0.0
  {
    ExpandedSize(Ascending(t.Keys), t);
  }

  /** The scan for an index within the total finds the element of that rank, the first one for an index below 1. */
  lemma ScanFromStart(t: Hist, index: int)
    requires t != map[] && WholeCounts(t) && index as real <= WeightOf(t)
    ensures var list := ExpandedList(t); var rank := if index < 1 then 1 else index; var keys := Ascending(t.Keys);
      1 <= rank <= |list| && Scan(keys, t, index, 0.0, keys[0]) == list[rank - 1]
  {
    var keys := Ascending(t.Keys);
    forall k ensures k in keys <==> k in t { AscendingMembers(t.Keys, k); }
    ExpandedSize(keys, t);
    assert keys[0] in keys && |Expanded(keys, t)| >= 1;
    ScanIsRank(keys, t, index, 0, keys[0]);
  }

  /** The index of the scan is the share of the total, rounded down, where it is at least 1. */
  lemma IndexIsShare(total: real, q: real, share: real)
    requires share == total * q / 100.0
    ensures if share < 1.0 then Index(total, q) < 1 else Index(total, q) == share.Floor
  {
    SameProduct(total, q);
  }

  /** The element of the list at the rank max(1, int(share)). */
  ghost predicate AtRank(list: seq<real>, share: real, element: real) {
    var rank := if share < 1.0 then 1 else share.Floor;
    1 <= rank <= |list| && element == list[rank - 1]
  }

  lemma RankOfShare(t: Hist, total: real, q: real, share: real)
    requires t != map[] && WholeCounts(t) && q < 100.0 && total == WeightOf(t)
    requires if share < 1.0 then Index(total, q) < 1 else Index(total, q) == share.Floor
    requires Index(total, q) as real <= total
    ensures AtRank(ExpandedList(t), share, QuantileAt(t, total, q))
  {
    ScanFromStart(t, Index(total, q));
  }

  /**
   Refinement: for whole counts, of which `total` is the sum, and a quantile below 100, the compact scan
   returns the element at rank max(1, int(total * q / 100)) of the fully expanded sorted list.
   */
  lemma QuantileIsRank(t: Hist, total: real, q: real)
    requires t != map[] && WholeCounts(t) && q < 100.0 && total == |ExpandedList(t)| as real
    ensures AtRank(ExpandedList(t), total * q / 100.0, QuantileAt(t, total, q))
  {
    ListSize(t);
    var share := total * q / 100.0;
    IndexWithinTotal(total, q);
    IndexIsShare(total, q, share);
    RankOfShare(t, total, q, share);
  }

  lemma LastIsLargest(keys: set<real>, k: real)
    requires k in keys
    ensures Ascending(keys) != []
    ensures k <= Ascending(keys)[|Ascending(keys)| - 1] && Ascending(keys)[|Ascending(keys)| - 1] in keys
  {
    var list := Ascending(keys);
    AscendingIsSorted(keys);
    AscendingMembers(keys, k);
    AscendingMembers(keys, list[|list| - 1]);
    var i :| 0 <= i < |list| && list[i] == k;
  }

  /** A quantile of 100 or more is the largest key. */
  lemma TopQuantile(t: Hist, total: real, q: real)
    requires t != map[] && q >= 100.0
    ensures QuantileAt(t, total, q) in t && forall k :: k in t ==> k <= QuantileAt(t, total, q)
  {
    var keys := Ascending(t.Keys);
    AscendingMembers(t.Keys, keys[|keys| - 1]);
    forall k | k in t ensures k <= QuantileAt(t, total, q) { LastIsLargest(t.Keys, k); }
  }

  /** The expanded list is sorted, and holds every key exactly as often as it was counted. */
  lemma ExpandedListIsFaithful(t: Hist)
    requires WholeCounts(t)
    ensures Sorted(ExpandedList(t))
    ensures forall k :: multiset(ExpandedList(t))[k] == if k in t then t[k].Floor else 0
  {
    AscendingIsSorted(t.Keys);
    ExpandedSorted(Ascending(t.Keys), t);
    forall k ensures multiset(ExpandedList(t))[k] == if k in t then t[k].Floor else 0 {
      forall x ensures x in Ascending(t.Keys) <==> x in t { AscendingMembers(t.Keys, x); }
      ExpandedCount(Ascending(t.Keys), t, k);
    }
  }

  lemma {:induction false} ExpandedSorted(keys: seq<real>, t: Hist)
    requires WholeCounts(t) && StrictlySorted(keys)
    ensures Sorted(Expanded(keys, t))
  {
    if keys != [] {
      ExpandedSorted(keys[1..], t);
      var n, rest := CountAt(t, keys[0]).Floor, Expanded(keys[1..], t);
      forall i | 0 <= i < |rest| ensures keys[0] <= rest[i] {
        ExpandedMembers(keys[1..], t, i);
        var j :| 0 <= j < |keys[1..]| && keys[1..][j] == rest[i];
        assert keys[0] < keys[j + 1];
      }
      SortedBehind(keys[0], n, rest);
    }
  }

  lemma SortedBehind(k: real, n: nat, rest: seq<real>)
    requires Sorted(rest) && forall i :: 0 <= i < |rest| ==> k <= rest[i]
    ensures Sorted(Repeat(k, n) + rest)
  {
    var all := Repeat(k, n) + rest;
    forall i, j | 0 <= i <= j < |all| ensures all[i] <= all[j] {
      if i >= n { assert rest[i - n] <= rest[j - n]; }
    }
  }

  lemma {:induction false} RepeatCount(k: real, n: nat, x: real)
    ensures multiset(Repeat(k, n))[x] == if x == k then n else 0
  {
    if n > 0 {
      assert Repeat(k, n) == Repeat(k, n - 1) + [k];
      RepeatCount(k, n - 1, x);
    }
  }

  lemma {:induction false} ExpandedCount(keys: seq<real>, t: Hist, k: real)
    requires WholeCounts(t) && StrictlySorted(keys) && forall x :: x in keys ==> x in t
    ensures multiset(Expanded(keys, t))[k] == if k in keys then t[k].Floor else 0
  {
    if keys != [] {
      RepeatCount(keys[0], CountAt(t, keys[0]).Floor, k);
      ExpandedCount(keys[1..], t, k);
      assert keys == [keys[0]] + keys[1..];
      assert keys[0] in keys && keys[0] !in keys[1..];
    }
  }

  // ----- monotonicity

  lemma {:induction false} ScanGrows(keys: seq<real>, t: Hist, index: int, later: int, sumidx: real, value: real)
    requires StrictlySorted(keys)
    requires keys != [] && index <= later && later as real <= sumidx + Weight(keys, t)
    ensures Scan(keys, t, index, sumidx, value) <= Scan(keys, t, later, sumidx, value)
  {
    if index as real <= sumidx + CountAt(t, keys[0]) {
      ScanStops(keys, t, later, sumidx, value, value);
    } else {
      ScanGrows(keys[1..], t, index, later, sumidx + CountAt(t, keys[0]), value);
    }
  }

  lemma QuantileGrows(t: Hist, q: real, r: real)
    requires t != map[] && Countable(t) && q <= r
    ensures QuantileAt(t, WeightOf(t), q) <= QuantileAt(t, WeightOf(t), r)
  {
    AscendingIsSorted(t.Keys);
    var keys, total := Ascending(t.Keys), WeightOf(t);
    WeightNonNegative(keys, t);
    if q < 100.0 {
      IndexWithinTotal(total, q);
      ScanStops(keys, t, Index(total, q), 0.0, keys[0], keys[0]);
      if r < 100.0 {
        IndexWithinTotal(total, r);
        IndexGrows(total, q, r);
        ScanGrows(keys, t, Index(total, q), Index(total, r), 0.0, keys[0]);
      }
    }
  }

  /**
   Where counts are not negative and the total is their sum, no quantile inherits the one before it:
   each is the quantile of the histogram itself.
   */
  lemma NothingInherited(quantile: seq<real>, factor: real, t: Hist, i: nat)
    requires t != map[] && Countable(t) && i < |quantile|
    ensures QuantilesOf(quantile, factor, t, WeightOf(t))[i] == factor * QuantileAt(t, WeightOf(t), quantile[i])
  {
    var keys, total, q := Ascending(t.Keys), WeightOf(t), quantile[i];
    if q < 100.0 {
      WeightNonNegative(keys, t);
      IndexWithinTotal(total, q);
      ScanStops(keys, t, Index(total, q), 0.0, ValueAfter(quantile, t, total, i), keys[0]);
    }
  }

  /**
   What is answered for a quantile of a list of so many elements: the element at its rank, and the
   largest one from 100 on.
   */
  ghost predicate Answers(list: seq<real>, total: real, q: real, answer: real) {
    if q < 100.0 then AtRank(list, total * q / 100.0, answer)
    else answer in list && forall x :: x in list ==> x <= answer
  }

  lemma TopAnswers(t: Hist, total: real, q: real)
    requires t != map[] && WholeCounts(t) && q >= 100.0
    ensures Answers(ExpandedList(t), total, q, QuantileAt(t, total, q))
  {
    var list := ExpandedList(t);
    TopQuantile(t, total, q);
    ExpandedListIsFaithful(t);
    forall x ensures x in list <==> x in t {
      assert x in list <==> x in multiset(list);
      assert x in multiset(list) <==> multiset(list)[x] > 0;
      assert x in t ==> t[x].Floor >= 1;
    }
  }

  lemma RankAnswers(t: Hist, total: real, q: real)
    requires t != map[] && WholeCounts(t) && total == |ExpandedList(t)| as real
    ensures Answers(ExpandedList(t), total, q, QuantileAt(t, total, q))
  {
    if q < 100.0 {
      QuantileIsRank(t, total, q);
    } else {
      TopAnswers(t, total, q);
    }
  }

  /** A factor times what is answered for a quantile of the list. */
  ghost predicate AnswersFrom(list: seq<real>, total: real, q: real, factor: real, answered: real) {
    exists answer :: Answers(list, total, q, answer) && answered == factor * answer
  }

  /** For whole counts, as hosts count timings, each answer is read off the expanded list. */
  lemma AnswersAreRanks(quantile: seq<real>, factor: real, t: Hist, total: real, i: nat)
    requires t != map[] && WholeCounts(t) && total == |ExpandedList(t)| as real && i < |quantile|
    ensures AnswersFrom(ExpandedList(t), total, quantile[i], factor, QuantilesOf(quantile, factor, t, total)[i])
  {
    ListSize(t);
    NothingInherited(quantile, factor, t, i);
    RankAnswers(t, total, quantile[i]);
    assert QuantilesOf(quantile, factor, t, total)[i] == factor * QuantileAt(t, total, quantile[i]);
  }

  lemma AllAnswers(quantile: seq<real>, factor: real, t: Hist, total: real)
    requires t != map[]
    ensures WholeCounts(t) && total == |ExpandedList(t)| as real ==>
      forall i :: 0 <= i < |quantile| ==>
        AnswersFrom(ExpandedList(t), total, quantile[i], factor, QuantilesOf(quantile, factor, t, total)[i])
  {
    if WholeCounts(t) && total == |ExpandedList(t)| as real {
      forall i | 0 <= i < |quantile|
        ensures AnswersFrom(ExpandedList(t), total, quantile[i], factor, QuantilesOf(quantile, factor, t, total)[i])
      {
        AnswersAreRanks(quantile, factor, t, total, i);
      }
    }
  }

  lemma ScalingKeepsOrder(factor: real, a: real, b: real)
    requires factor >= 0.0 && a <= b
    ensures factor * a <= factor * b
  {
    assert factor * (b - a) >= 0.0;
  }

  lemma AnswersAscend(quantile: seq<real>, factor: real, t: Hist, i: nat, j: nat)
    requires t != map[] && Countable(t) && factor >= 0.0 && i < |quantile| && j < |quantile|
    requires quantile[i] <= quantile[j]
    ensures QuantilesOf(quantile, factor, t, WeightOf(t))[i] <= QuantilesOf(quantile, factor, t, WeightOf(t))[j]
  {
    NothingInherited(quantile, factor, t, i);
    NothingInherited(quantile, factor, t, j);
    QuantileGrows(t, quantile[i], quantile[j]);
    ScalingKeepsOrder(factor, QuantileAt(t, WeightOf(t), quantile[i]), QuantileAt(t, WeightOf(t), quantile[j]));
  }

  /** With a non-negative factor the answers ascend with the sorted list of quantiles. */
  lemma QuantilesAscend(quantile: seq<real>, factor: real, t: Hist)
    requires t != map[] && Countable(t) && Sorted(quantile) && factor >= 0.0
    ensures Sorted(QuantilesOf(quantile, factor, t, WeightOf(t)))
  {
    var answers := QuantilesOf(quantile, factor, t, WeightOf(t));
    forall i, j | 0 <= i <= j < |answers| ensures answers[i] <= answers[j] {
      AnswersAscend(quantile, factor, t, i, j);
    }
  }

  // ----- the loop

  method SortedKeys(timings: Hist) returns (keys: seq<real>)
    ensures keys == Ascending(timings.Keys)
  {
    keys := [];
    var rest := timings.Keys;
    while rest != {}
      invariant keys + Ascending(rest) == Ascending(timings.Keys)
      decreases |rest|
    {
      LeastExists(rest);
      var k :| IsLeast(k, rest);
      assert Ascending(rest) == [k] + Ascending(rest - {k});
      keys := keys + [k];
      rest := rest - {k};
    }
  }

  /** The quantiles of a histogram; `value` carries over from one quantile to the next. */
  method CalculateQuantiles(quantile: seq<real>, factor: real, timings: Hist, totalCount: real)
    returns (quantiles: seq<real>)
    requires timings != map[]
    ensures quantiles == QuantilesOf(quantile, factor, timings, totalCount)
    ensures WholeCounts(timings) && totalCount == |ExpandedList(timings)| as real ==>
      forall i :: 0 <= i < |quantile| ==>
        AnswersFrom(ExpandedList(timings), totalCount, quantile[i], factor, quantiles[i])
  {
    var keys := SortedKeys(timings);
    var value := keys[0];
    quantiles := [];
    ghost var answers := QuantilesOf(quantile, factor, timings, totalCount);
    for idx := 0 to |quantile|
      invariant |quantiles| == idx && forall i :: 0 <= i < idx ==> quantiles[i] == answers[i]
      invariant value == ValueAfter(quantile, timings, totalCount, idx)
    {
      if quantile[idx] < 100.0 {
        forall k | k in keys ensures k in timings { AscendingMembers(timings.Keys, k); }
        value := FirstReaching(keys, timings, Index(totalCount, quantile[idx]), value);
      } else {
        value := keys[|keys| - 1];
      }
      quantiles := quantiles + [factor * value];
    }
    AllAnswers(quantile, factor, timings, totalCount);
  }

  method FirstReaching(keys: seq<real>, timings: Hist, index: int, previous: real) returns (value: real)
    requires forall k :: k in keys ==> k in timings
    ensures value == Scan(keys, timings, index, 0.0, previous)
  {
    value := previous;
    var sumidx := 0.0;
    for i := 0 to |keys|
      invariant value == previous
      invariant Scan(keys, timings, index, 0.0, previous) == Scan(keys[i..], timings, index, sumidx, previous)
    {
      assert keys[i..][1..] == keys[i + 1..];
      sumidx := sumidx + timings[keys[i]];
      if index as real <= sumidx {
        value := keys[i];
        break;
      }
    }
  }
}
