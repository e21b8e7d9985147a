/**
 When a pass lifts the largest count: the most loaded host ends with more configs than anyone held
 before, and with more than the ceiling of the mean.
 */
module Maximum {
  import opened Sums
  import opened Balance

  function Max(a: int, b: int): int { if a < b then b else a }

  /** No host holds more than `top`. */
  ghost predicate Below(s: Load, top: int) {
    forall j :: 0 <= j < |s.held| ==> s.held[j] <= top
  }

  /** With nothing free, whoever receives stays below whoever paid. */
  lemma TurnKeepsMaximum(p: Plan, counts: seq<int>, k: nat, s: Load)
    requires Ready(p, counts, 0) && k < p.n && Kept(p, counts, 0, k, s) && Below(s, counts[p.n - 1])
    ensures Below(Turn(p, s, k), counts[p.n - 1])
  {
    TurnInPlainTerms(p, counts, 0, k, s);
    var (t, index) := Advance(p, s);
    var rel := Released(p, s, k);
    assert Assigned(p, s, k) == rel;
    assert HostKept(p.average, counts[k], s.quantity[k], s.held[k], false, false);
    assert HostKept(p.average, counts[t], s.quantity[t], s.held[t], t < k, false);
    assert rel > 0 ==> s.held[k] + rel <= s.quantity[t] <= counts[t] <= counts[p.n - 1];
    forall j | 0 <= j < p.n ensures Turn(p, s, k).held[j] <= counts[p.n - 1] { MoveAt(s, t, index, k, rel, rel, j); }
  }

  /** With every config assigned, no host ever holds more than the most loaded one did. */
  lemma AssignedPassKeepsMaximum(p: Plan, counts: seq<int>, k: nat)
    requires Ready(p, counts, 0) && k <= p.n
    ensures Below(After(p, counts, 0, k), counts[p.n - 1])
  {
    var inv := (i: nat, s: Load) => Kept(p, counts, 0, i, s) && Below(s, counts[p.n - 1]);
    forall i: nat, s: Load | i < p.n && Shape(p, s) && inv(i, s) ensures inv(i + 1, Turn(p, s, i)) {
      TurnKeeps(p, counts, 0, i, s);
      TurnKeepsMaximum(p, counts, i, s);
    }
    AlwaysKept(p, counts, 0, 0);
    assert After(p, counts, 0, 0) == Start(counts, 0);
    Throughout(p, counts, 0, inv, 0, k);
  }

  lemma TwoHosts(p: Plan, counts: seq<int>)
    requires |counts| == 2
    ensures Sum(counts) == counts[0] + counts[1] && Times(2, p.average) == p.average + p.average
  {
    assert counts[1..] == [counts[1]] && counts[1..][1..] == [];
    assert Sum(counts[1..]) == counts[1] + Sum([]);
    assert Times(2, p.average) == Times(1, p.average) + p.average;
    assert Times(1, p.average) == Times(0, p.average) + p.average;
  }

  /** What the first of two hosts' turn leaves. */
  lemma FirstOfTwo(p: Plan, counts: seq<int>, free: nat)
    requires Ready(p, counts, free) && p.n == 2
    ensures var s := After(p, counts, free, 1);
      && s.held[0] <= Max(counts[1], p.permissible)
      && s.quantity[0] == counts[0] && s.held[1] == s.quantity[1] <= counts[1]
      && (counts[1] > p.average ==> s.free == 0 || s.quantity[1] < counts[1])
  {
    TwoHosts(p, counts);
    assert After(p, counts, free, 0) == Start(counts, free);
    AlwaysKept(p, counts, free, 0);
    AlwaysKept(p, counts, free, 1);
    TurnIsProper(p, counts, free, 0, Start(counts, free));
    TurnInPlainTerms(p, counts, free, 0, Start(counts, free));
  }

  lemma TwoHostsKeepMaximum(p: Plan, counts: seq<int>, free: nat)
    requires Ready(p, counts, free) && p.n == 2
    ensures Below(After(p, counts, free, 2), Max(counts[1], p.permissible))
  {
    var s := After(p, counts, free, 1);
    FirstOfTwo(p, counts, free);
    AlwaysKept(p, counts, free, 1);
    SecondOfTwo(p, counts, free, s);
  }

  lemma SecondOfTwo(p: Plan, counts: seq<int>, free: nat, s: Load)
    requires Ready(p, counts, free) && p.n == 2 && Kept(p, counts, free, 1, s)
    requires s.held[0] <= Max(counts[1], p.permissible)
    requires s.quantity[0] == counts[0] && s.held[1] == s.quantity[1] <= counts[1]
    requires counts[1] > p.average ==> s.free == 0 || s.quantity[1] < counts[1]
    ensures Below(Turn(p, s, 1), Max(counts[1], p.permissible))
  {
    var (t, index) := Advance(p, s);
    var rel, add := Released(p, s, 1), Assigned(p, s, 1);
    TurnIsProper(p, counts, free, 1, s);
    TurnInPlainTerms(p, counts, free, 1, s);
    TwoHosts(p, counts);
    TwoHosts(p, s.held);
    assert s.free + rel == 0 ==> add == 0;
    assert counts[1] == p.average == p.permissible && s.quantity[1] == p.average ==> s.free == 0;
    forall j | 0 <= j < 2 ensures Turn(p, s, 1).held[j] <= Max(counts[1], p.permissible) {
      MoveAt(s, t, index, 1, rel, add, j);
    }
  }

  lemma OneHostKeepsMaximum(p: Plan, counts: seq<int>, free: nat)
    requires Ready(p, counts, free) && p.n == 1
    ensures Below(After(p, counts, free, 1), p.permissible)
  {
    AlwaysKept(p, counts, free, 1);
    var s := After(p, counts, free, 1);
    TimesIsProduct(1, p.average);
    assert s.held[1..] == [] && Sum(s.held) == s.held[0];
  }

  // ----- three hosts or more, and something free

  /** A turn that has nothing to give and nobody to take from. */
  lemma QuietTurn(p: Plan, s: Load, k: nat)
    requires Shape(p, s) && k < p.n && s.free == 0 && s.quantity[k] >= p.average
    requires forall j :: 0 <= j < p.n ==> s.quantity[j] <= p.average + 1
    ensures var r := Turn(p, s, k); r.held == s.held && r.quantity == s.quantity && r.free == 0
  {
    assert s.quantity[Advance(p, s).0] <= p.average + 1;
    assert Released(p, s, k) == 0 && Assigned(p, s, k) == 0;
  }

  /** One idle host, and all others one above what is free. */
  ghost predicate Witness(p: Plan, counts: seq<int>, free: nat) {
    && p == Plan(p.n, free, free + 1) && p.n >= 3 && free >= 1 && |counts| == p.n && counts[0] == 0
    && forall j :: 0 < j < p.n ==> counts[j] == free + 1
  }

  lemma WitnessIsReady(p: Plan, counts: seq<int>, free: nat)
    requires Witness(p, counts, free)
    ensures Ready(p, counts, free) && Sum(counts) == Times(p.n - 1, free + 1)
  {
    SumOfSame(counts[1..], free + 1);
    assert Sum(counts) == Times(p.n - 1, free + 1);
    TimesAddsOne(p.n - 1, free);
    assert Times(p.n, free) == Times(p.n - 1, free) + free;
  }

  /** The second host holds one more than anyone did, and nobody has anything to do any more. */
  ghost predicate RaisedAndQuiet(p: Plan, s: Load)
    requires Shape(p, s) && p.n >= 3
  {
    && s.held[1] == p.average + 2 && s.free == 0 && (forall j :: 0 <= j < p.n ==> s.quantity[j] <= p.average + 1)
    && (forall j :: 2 <= j < p.n ==> s.quantity[j] >= p.average)
  }

  /** The last host pays one config, the idle one is filled, and the second host gets the config left over. */
  lemma WitnessRaises(p: Plan, counts: seq<int>, free: nat)
    requires Witness(p, counts, free)
    ensures RaisedAndQuiet(p, After(p, counts, free, 2))
  {
    var z := Start(counts, free);
    assert Advance(p, z) == (p.n - 1, p.n - 2) && Released(p, z, 0) == 1 && Assigned(p, z, 0) == free;
    var one := Move(z, p.n - 1, p.n - 2, 0, 1, free);
    assert After(p, counts, free, 0) == z;
    assert After(p, counts, free, 1) == one;
    assert Advance(p, one) == (p.n - 2, p.n - 3) && Released(p, one, 1) == 0 && Assigned(p, one, 1) == 1;
    assert After(p, counts, free, 2) == Move(one, p.n - 2, p.n - 3, 1, 0, 1);
  }

  lemma {:induction false} WitnessStays(p: Plan, counts: seq<int>, free: nat, k: nat)
    requires Witness(p, counts, free) && 2 <= k <= p.n
    ensures RaisedAndQuiet(p, After(p, counts, free, k))
  {
    if k == 2 {
      WitnessRaises(p, counts, free);
    } else {
      WitnessStays(p, counts, free, k - 1);
      QuietTurn(p, After(p, counts, free, k - 1), k - 1);
    }
  }

  lemma WitnessIssues(p: Plan, counts: seq<int>, free: nat)
    requires Witness(p, counts, free)
    ensures Issued(After(p, counts, free, p.n), 1)
  {
    var z := Start(counts, free);
    assert After(p, counts, free, 0) == z;
    assert Released(p, z, 0) == 1 && Assigned(p, z, 0) == free;
    assert Issued(Turn(p, z, 0), 1);
    assert After(p, counts, free, 1) == Turn(p, z, 0);
    CommandsGrow(p, counts, free, 1, p.n, 1);
  }

  /** A pass that starts with a config unassigned can raise the largest count on three hosts or more. */
  lemma PassMayRaiseTheMaximum(n: nat, free: nat) returns (p: Plan, counts: seq<int>)
    requires n >= 3 && free >= 1
    ensures p.n == n && Ready(p, counts, free)
    ensures Sum(counts) == Times(n - 1, free + 1) && Issued(After(p, counts, free, n), 1)
    ensures After(p, counts, free, n).held[1] == counts[n - 1] + 1 == p.permissible + 1
  {
    p := Plan(n, free, free + 1);
    counts := seq(n, j => if j == 0 then 0 else free + 1);
    WitnessIsReady(p, counts, free);
    WitnessStays(p, counts, free, n);
    WitnessIssues(p, counts, free);
  }

  /**
   Whatever n hosts held, a pass with so many configs free raises no count above the largest one or
   the ceiling of the mean.
   */
  ghost predicate KeepsMaximum(n: nat, free: nat)
    requires n > 0
  {
    forall p: Plan, counts: seq<int> :: p.n == n && Ready(p, counts, free) ==>
      Below(After(p, counts, free, n), Max(counts[n - 1], p.permissible))
  }

  /** That is so exactly when nothing is free or there are at most two hosts. */
  lemma MaximumIsKept(n: nat, free: nat)
    requires n > 0
    ensures KeepsMaximum(n, free) <==> free == 0 || n <= 2
  {
    if free == 0 || n <= 2 {
      forall p: Plan, counts: seq<int> | p.n == n && Ready(p, counts, free)
        ensures Below(After(p, counts, free, n), Max(counts[n - 1], p.permissible))
      {
        if free == 0 {
          AssignedPassKeepsMaximum(p, counts, n);
        } else if n == 1 {
          OneHostKeepsMaximum(p, counts, free);
        } else {
          TwoHostsKeepMaximum(p, counts, free);
        }
      }
    } else {
      var p, counts := PassMayRaiseTheMaximum(n, free);
      assert !Below(After(p, counts, free, n), Max(counts[n - 1], p.permissible));
    }
  }

  // ----- whether this pass lifts the maximum

  /** How many configs do not divide evenly over the hosts. */
  function Left(p: Plan, counts: seq<int>, free: nat): int {
    Sum(counts) + free - Times(p.n, p.average)
  }

  /** If a config is free when a host that holds `top` is served, that many configs do not divide evenly. */
  lemma FreeMeansLeft(p: Plan, counts: seq<int>, free: nat, k: nat, s: Load)
    requires Ready(p, counts, free) && k < p.n && Kept(p, counts, free, k, s) && s.free > 0
    requires counts[k] == s.quantity[k] >= p.average
    ensures Left(p, counts, free) >= s.free + (counts[k] - p.average) + (k - FirstAt(counts, p.average))
  {
    var d, over := FirstAt(counts, p.average), counts[k] - p.average;
    Boundary(counts, p.average);
    var others := s.held[k := s.held[k] - over];
    SumUpdate(s.held, k, s.held[k] - over);
    forall j | 0 <= j < p.n ensures Ramp(p.n, p.average, d, k)[j] <= others[j] {
      assert HostKept(p.average, counts[j], s.quantity[j], s.held[j], j < k, true);
    }
    SumMonotone(Ramp(p.n, p.average, d, k), others);
    RampSum(p.n, p.average, d, k);
  }

  lemma TurnStaysBelow(p: Plan, counts: seq<int>, free: nat, k: nat, s: Load, top: int)
    requires Ready(p, counts, free) && k < p.n && Kept(p, counts, free, k, s) && Below(s, top)
    requires top >= counts[p.n - 1] && top >= p.permissible
    requires Left(p, counts, free) <= top - p.average + FirstAt(counts, top) - FirstAt(counts, p.average)
    ensures Below(Turn(p, s, k), top)
  {
    TurnIsProper(p, counts, free, k, s);
    var (t, index) := Advance(p, s);
    var rel, add := Released(p, s, k), Assigned(p, s, k);
    assert HostKept(p.average, counts[k], s.quantity[k], s.held[k], false, s.free > 0);
    assert HostKept(p.average, counts[t], s.quantity[t], s.held[t], t < k, s.free > 0);
    assert counts[t] <= top && counts[k] <= top;
    if s.quantity[k] == top && s.free > 0 {
      FreeMeansLeft(p, counts, free, k, s);
      Boundary(counts, top);
    }
    assert s.held[k] + add <= top;
    forall j | 0 <= j < p.n ensures Turn(p, s, k).held[j] <= top { MoveAt(s, t, index, k, rel, add, j); }
  }

  /**
   A pass lifts no host above `top`, the largest count or more, if at most so many configs do not
   divide evenly: by how much `top` exceeds the average, and one for each host between the two.
   */
  lemma FewLeftKeepMaximum(p: Plan, counts: seq<int>, free: nat, top: int, k: nat)
    requires Ready(p, counts, free) && k <= p.n && top >= counts[p.n - 1] && top >= p.permissible
    requires Left(p, counts, free) <= top - p.average + FirstAt(counts, top) - FirstAt(counts, p.average)
    ensures Below(After(p, counts, free, k), top)
  {
    var inv := (i: nat, s: Load) => Kept(p, counts, free, i, s) && Below(s, top);
    forall i: nat, s: Load | i < p.n && Shape(p, s) && inv(i, s) ensures inv(i + 1, Turn(p, s, i)) {
      TurnKeeps(p, counts, free, i, s);
      TurnStaysBelow(p, counts, free, i, s, top);
    }
    AlwaysKept(p, counts, free, 0);
    assert After(p, counts, free, 0) == Start(counts, free);
    Throughout(p, counts, free, inv, 0, k);
  }

  // ----- no host above the ceiling: the condition is exact

  /** While hosts below the average are served, the last hosts pay one each if they hold the ceiling. */
  ghost predicate Worn(p: Plan, counts: seq<int>, d: int, k: nat, s: Load) {
    && Shape(p, s) && |counts| == p.n && (k < p.n ==> s.index == p.n - 1 - k)
    && forall j :: 0 <= j < p.n ==>
      s.quantity[j] == if j >= p.n - Min(k, d) && counts[j] > p.average then counts[j] - 1 else counts[j]
  }

  /** No host holds more than the ceiling of the mean, which is above the average; d hosts hold less than it. */
  ghost predicate Capped(p: Plan, counts: seq<int>, free: nat, d: int) {
    && Ready(p, counts, free) && p.permissible == p.average + 1 && counts[p.n - 1] <= p.permissible
    && d == FirstAt(counts, p.average)
  }

  /** Both, as one fact about a point of the pass. */
  ghost predicate InTurn(p: Plan, counts: seq<int>, free: nat, d: int, k: nat, s: Load)
    requires |counts| == p.n
  {
    Kept(p, counts, free, k, s) && Worn(p, counts, d, k, s)
  }

  /** What is paid in the turn of host k. */
  lemma CappedTurn(p: Plan, counts: seq<int>, free: nat, d: int, k: nat, s: Load)
    requires Capped(p, counts, free, d) && k < p.n && InTurn(p, counts, free, d, k, s)
    ensures var t := Advance(p, s).0;
      && (k < d && k < p.n - 1 ==> t == p.n - 1 - k)
      && Released(p, s, k) == if k < d && counts[t] > p.average then 1 else 0
  {
    Boundary(counts, p.average);
    TurnInPlainTerms(p, counts, free, k, s);
    var t := Advance(p, s).0;
    assert counts[s.target] <= counts[p.n - 1];
    assert HostKept(p.average, counts[k], s.quantity[k], s.held[k], false, s.free > 0);
    assert counts[t] <= counts[p.n - 1] && s.quantity[t] <= counts[t];
  }

  lemma WornStep(p: Plan, counts: seq<int>, free: nat, d: int, k: nat, s: Load)
    requires Capped(p, counts, free, d) && k < p.n && InTurn(p, counts, free, d, k, s)
    ensures InTurn(p, counts, free, d, k + 1, Turn(p, s, k))
  {
    TurnKeeps(p, counts, free, k, s);
    CappedTurn(p, counts, free, d, k, s);
    Boundary(counts, p.average);
    var (t, index) := Advance(p, s);
    var rel, add := Released(p, s, k), Assigned(p, s, k);
    assert counts[s.target] <= counts[p.n - 1];
    forall j | 0 <= j < p.n
      ensures Turn(p, s, k).quantity[j] ==
        if j >= p.n - Min(k + 1, d) && counts[j] > p.average then counts[j] - 1 else counts[j]
    {
      MoveAt(s, t, index, k, rel, add, j);
      if k == p.n - 1 && k < d { assert counts[t] <= counts[p.n - 1] < p.average; }
    }
  }

  lemma WornStart(p: Plan, counts: seq<int>, free: nat, d: int)
    requires Capped(p, counts, free, d)
    ensures InTurn(p, counts, free, d, 0, Start(counts, free))
  {
    AlwaysKept(p, counts, free, 0);
    Boundary(counts, p.average);
  }

  lemma AlwaysWorn(p: Plan, counts: seq<int>, free: nat, d: int, k: nat)
    requires Capped(p, counts, free, d) && k <= p.n
    ensures InTurn(p, counts, free, d, k, After(p, counts, free, k))
  {
    var inv := (i: nat, s: Load) => InTurn(p, counts, free, d, i, s);
    forall i: nat, s: Load | i < p.n && Shape(p, s) && inv(i, s) ensures inv(i + 1, Turn(p, s, i)) {
      WornStep(p, counts, free, d, i, s);
    }
    WornStart(p, counts, free, d);
    assert After(p, counts, free, 0) == Start(counts, free);
    Throughout(p, counts, free, inv, 0, k);
  }

  /** When the first host that holds the ceiling is served: who holds one more than the average, at most. */
  lemma HeldAtTop(p: Plan, counts: seq<int>, free: nat, d: int, m: int, s: Load, j: nat)
    requires Capped(p, counts, free, d) && m == FirstAt(counts, p.permissible)
    requires 0 <= d <= m < p.n - d && InTurn(p, counts, free, d, m, s) && j < p.n
    ensures var most := Ramp(p.n, p.average, d, p.n - d)[j]; s.held[j] <= most && (s.free > 0 ==> s.held[j] == most)
    ensures j == m ==> s.quantity[j] == p.permissible
  {
    Boundary(counts, p.average);
    Boundary(counts, p.permissible);
    assert HostKept(p.average, counts[j], s.quantity[j], s.held[j], j < m, s.free > 0);
    assert counts[j] <= counts[p.n - 1];
  }

  /** When the first host that holds the ceiling is served, and it did not pay. */
  lemma FreeAtTop(p: Plan, counts: seq<int>, free: nat, d: int, m: int, s: Load)
    requires Capped(p, counts, free, d) && m == FirstAt(counts, p.permissible)
    requires 0 <= d && 0 <= m < p.n - d && InTurn(p, counts, free, d, m, s)
    ensures s.free > 0 <==> Left(p, counts, free) + 2 * d > p.n
    ensures s.quantity[m] == p.permissible && Below(s, p.permissible)
  {
    Boundary(counts, p.average);
    Boundary(counts, p.permissible);
    assert counts[m] >= p.permissible && d <= m;
    var ramp := Ramp(p.n, p.average, d, p.n - d);
    forall j | 0 <= j < p.n
      ensures s.held[j] <= ramp[j] && (s.free > 0 ==> s.held[j] == ramp[j])
      ensures j == m ==> s.quantity[j] == p.permissible
    {
      HeldAtTop(p, counts, free, d, m, s, j);
    }
    SumMonotone(s.held, ramp);
    if s.free > 0 {
      SumMonotone(ramp, s.held);
    }
    RampSum(p.n, p.average, d, p.n - d);
  }

  /** Host j ends up with so many more configs than it is believed to hold. */
  ghost predicate Gap(s: Load, j: int, gain: int) {
    0 <= j < |s.held| == |s.quantity| && s.held[j] == s.quantity[j] + gain
  }

  /** A host above the average receives a config in its own turn exactly if one is free. */
  lemma GapOpens(p: Plan, counts: seq<int>, free: nat, j: nat, s: Load)
    requires Ready(p, counts, free) && j < p.n && Kept(p, counts, free, j, s) && s.quantity[j] > p.average
    ensures Gap(Turn(p, s, j), j, if s.free > 0 then 1 else 0)
  {
    assert HostKept(p.average, counts[j], s.quantity[j], s.held[j], false, s.free > 0);
    TurnIsProper(p, counts, free, j, s);
    MoveAt(s, Advance(p, s).0, Advance(p, s).1, j, Released(p, s, j), Assigned(p, s, j), j);
  }

  lemma GapKept(p: Plan, s: Load, k: nat, j: nat, gain: int)
    requires Shape(p, s) && k < p.n && j < p.n && j != k && Gap(s, j, gain)
    ensures Gap(Turn(p, s, k), j, gain)
  {
    MoveAt(s, Advance(p, s).0, Advance(p, s).1, k, Released(p, s, k), Assigned(p, s, k), j);
  }

  /** The turns of other hosts do not touch what a host received. */
  lemma GapStays(p: Plan, counts: seq<int>, free: nat, j: nat, k: nat, gain: int)
    requires p.n > 0 && |counts| == p.n && j < k <= p.n && Gap(After(p, counts, free, j + 1), j, gain)
    ensures Gap(After(p, counts, free, k), j, gain)
  {
    var inv := (i: nat, s: Load) => i > j && Gap(s, j, gain);
    forall i: nat, s: Load | i < p.n && Shape(p, s) && inv(i, s) ensures inv(i + 1, Turn(p, s, i)) {
      GapKept(p, s, i, j, gain);
    }
    Throughout(p, counts, free, inv, j + 1, k);
  }

  lemma GapOfPass(p: Plan, counts: seq<int>, free: nat, j: nat)
    requires Ready(p, counts, free) && j < p.n && After(p, counts, free, j).quantity[j] > p.average
    ensures Gap(After(p, counts, free, p.n), j, if After(p, counts, free, j).free > 0 then 1 else 0)
  {
    AlwaysKept(p, counts, free, j);
    GapOpens(p, counts, free, j, After(p, counts, free, j));
    GapStays(p, counts, free, j, p.n, if After(p, counts, free, j).free > 0 then 1 else 0);
  }

  /** Nothing is free, and no host holds more than `top`. */
  ghost predicate Spent(s: Load, top: int) { s.free == 0 && Below(s, top) }

  lemma SpentStep(p: Plan, counts: seq<int>, free: nat, d: int, k: nat, s: Load, top: int)
    requires Capped(p, counts, free, d) && k < p.n && d <= k && InTurn(p, counts, free, d, k, s)
    requires Spent(s, top)
    ensures Spent(Turn(p, s, k), top)
  {
    CappedTurn(p, counts, free, d, k, s);
    assert Assigned(p, s, k) == 0;
    forall j | 0 <= j < p.n ensures Turn(p, s, k).held[j] <= top {
      MoveAt(s, Advance(p, s).0, Advance(p, s).1, k, 0, 0, j);
    }
  }

  /** From turn d on, with nothing free, nobody receives any more. */
  lemma SpentStays(p: Plan, counts: seq<int>, free: nat, d: int, m: nat, k: nat, top: int)
    requires Capped(p, counts, free, d) && d <= m <= k <= p.n && Spent(After(p, counts, free, m), top)
    ensures Spent(After(p, counts, free, k), top)
  {
    var inv := (i: nat, s: Load) => i >= m && InTurn(p, counts, free, d, i, s) && Spent(s, top);
    forall i: nat, s: Load | i < p.n && Shape(p, s) && inv(i, s) ensures inv(i + 1, Turn(p, s, i)) {
      WornStep(p, counts, free, d, i, s);
      SpentStep(p, counts, free, d, i, s, top);
    }
    AlwaysWorn(p, counts, free, d, m);
    Throughout(p, counts, free, inv, m, k);
  }

  /** If all hosts at the ceiling pay, nobody ends above it. */
  lemma AllPay(p: Plan, counts: seq<int>, free: nat, d: int)
    requires Capped(p, counts, free, d) && FirstAt(counts, p.permissible) >= p.n - d
    ensures Below(After(p, counts, free, p.n), p.permissible)
  {
    AlwaysWorn(p, counts, free, d, p.n);
    Boundary(counts, p.average);
    Boundary(counts, p.permissible);
    var s := After(p, counts, free, p.n);
    forall j | 0 <= j < p.n ensures s.held[j] <= p.permissible {
      assert HostKept(p.average, counts[j], s.quantity[j], s.held[j], true, s.free > 0);
      assert counts[j] <= counts[p.n - 1];
    }
  }

  /**
   More hosts hold the ceiling than hold less than the average, and the configs that do not divide
   evenly outnumber the hosts once those below the average are taken off twice.
   */
  predicate TooManyAtTheCeiling(p: Plan, counts: seq<int>, free: nat) {
    var below, top := FirstAt(counts, p.average), p.n - FirstAt(counts, p.permissible);
    top > below && Left(p, counts, free) + 2 * below > p.n
  }

  /** If no host starts above the ceiling of the mean, a pass lifts one above it exactly under this condition. */
  lemma CeilingIsExceeded(p: Plan, counts: seq<int>, free: nat)
    requires Ready(p, counts, free) && counts[p.n - 1] <= p.permissible
    ensures Below(After(p, counts, free, p.n), p.permissible) <==> !TooManyAtTheCeiling(p, counts, free)
  {
    var d, m := FirstAt(counts, p.average), FirstAt(counts, p.permissible);
    Boundary(counts, p.average);
    Boundary(counts, p.permissible);
    if p.permissible == p.average {
      FewLeftKeepMaximum(p, counts, free, p.average, p.n);
    } else if m >= p.n - d {
      AllPay(p, counts, free, d);
    } else {
      AlwaysWorn(p, counts, free, d, m);
      var s := After(p, counts, free, m);
      FreeAtTop(p, counts, free, d, m, s);
      assert d <= m < p.n;
      if s.free > 0 {
        assert HostKept(p.average, counts[m], s.quantity[m], s.held[m], false, true);
        GapOfPass(p, counts, free, m);
        AlwaysWorn(p, counts, free, d, p.n);
        assert After(p, counts, free, p.n).held[m] > p.permissible;
      } else {
        SpentStays(p, counts, free, d, m, p.n, p.permissible);
      }
    }
  }

  // ----- a host above the ceiling: one host decides

  /** Hosts before the one that pays never paid, and hosts behind it are not overloaded any more. */
  ghost predicate Frontier(p: Plan, counts: seq<int>, s: Load) {
    && Shape(p, s) && |counts| == p.n && s.index <= s.target <= s.index + 1
    && (forall i :: 0 <= i < s.target ==> s.quantity[i] == counts[i])
    && (forall i :: s.target < i < p.n ==> s.quantity[i] <= p.permissible)
  }

  lemma FrontierStep(p: Plan, counts: seq<int>, k: nat, s: Load)
    requires Frontier(p, counts, s) && k < p.n
    ensures Frontier(p, counts, Turn(p, s, k))
  {
    var (t, index) := Advance(p, s);
    forall j | 0 <= j < p.n && j != t ensures Turn(p, s, k).quantity[j] == s.quantity[j] {
      MoveAt(s, t, index, k, Released(p, s, k), Assigned(p, s, k), j);
    }
  }

  lemma AlwaysFrontier(p: Plan, counts: seq<int>, free: nat, k: nat)
    requires p.n > 0 && |counts| == p.n && k <= p.n
    ensures Frontier(p, counts, After(p, counts, free, k))
  {
    var inv := (i: nat, s: Load) => Frontier(p, counts, s);
    forall i: nat, s: Load | i < p.n && Shape(p, s) && inv(i, s) ensures inv(i + 1, Turn(p, s, i)) {
      FrontierStep(p, counts, i, s);
    }
    assert After(p, counts, free, 0) == Start(counts, free);
    Throughout(p, counts, free, inv, 0, k);
  }

  /** What happens to host j between two points of a pass: its believed count falls, and nothing becomes free. */
  ghost predicate Falls(s: Load, r: Load, j: int) {
    && 0 <= j < |s.quantity| == |s.held| && j < |r.quantity| == |r.held|
    && r.quantity[j] <= s.quantity[j] && r.free <= s.free
  }

  lemma TurnFalls(p: Plan, counts: seq<int>, free: nat, k: nat, s: Load, j: nat)
    requires Ready(p, counts, free) && k < p.n && Kept(p, counts, free, k, s) && j < p.n
    ensures Falls(s, Turn(p, s, k), j)
  {
    TurnIsProper(p, counts, free, k, s);
    MoveAt(s, Advance(p, s).0, Advance(p, s).1, k, Released(p, s, k), Assigned(p, s, k), j);
  }

  lemma AlwaysFalls(p: Plan, counts: seq<int>, free: nat, i: nat, k: nat, j: nat)
    requires Ready(p, counts, free) && i <= k <= p.n && j < p.n
    ensures Falls(After(p, counts, free, i), After(p, counts, free, k), j)
  {
    var earlier := After(p, counts, free, i);
    var inv := (l: nat, s: Load) => Kept(p, counts, free, l, s) && Falls(earlier, s, j);
    forall l: nat, s: Load | l < p.n && Shape(p, s) && inv(l, s) ensures inv(l + 1, Turn(p, s, l)) {
      TurnKeeps(p, counts, free, l, s);
      TurnFalls(p, counts, free, l, s, j);
    }
    AlwaysKept(p, counts, free, i);
    Throughout(p, counts, free, inv, i, k);
  }

  /** A config is free when the first of the most loaded hosts is served, and that host never pays. */
  ghost predicate FirstOfTheMostLoadedGains(p: Plan, counts: seq<int>, free: nat)
    requires Ready(p, counts, free)
  {
    var top := counts[p.n - 1]; var m := FirstAt(counts, top);
    0 <= m < p.n && After(p, counts, free, m).free > 0 && After(p, counts, free, p.n).quantity[m] == top
  }

  lemma GainLifts(p: Plan, counts: seq<int>, free: nat)
    requires Ready(p, counts, free) && counts[p.n - 1] > p.permissible
    requires FirstOfTheMostLoadedGains(p, counts, free)
    ensures !Below(After(p, counts, free, p.n), counts[p.n - 1])
  {
    var m := FirstAt(counts, counts[p.n - 1]);
    AlwaysFalls(p, counts, free, m, p.n, m);
    GapOfPass(p, counts, free, m);
    assert After(p, counts, free, p.n).held[m] > counts[p.n - 1];
  }

  lemma LiftIsGain(p: Plan, counts: seq<int>, free: nat)
    requires Ready(p, counts, free) && counts[p.n - 1] > p.permissible
    requires !Below(After(p, counts, free, p.n), counts[p.n - 1])
    ensures FirstOfTheMostLoadedGains(p, counts, free)
  {
    var top := counts[p.n - 1];
    var m := FirstAt(counts, top);
    var s := After(p, counts, free, p.n);
    Boundary(counts, top);
    var j :| 0 <= j < p.n && s.held[j] > top;
    AlwaysKept(p, counts, free, p.n);
    assert HostKept(p.average, counts[j], s.quantity[j], s.held[j], true, s.free > 0);
    assert s.quantity[j] == counts[j] == top;
    AlwaysFalls(p, counts, free, j, p.n, j);
    GapOfPass(p, counts, free, j);
    AlwaysFalls(p, counts, free, m, j, j);
    AlwaysFrontier(p, counts, free, p.n);
    assert m < j ==> m < s.target;
    assert counts[m] == top;
  }

  /** If some host starts above the ceiling, the first of the most loaded ones decides. */
  lemma OneHostDecides(p: Plan, counts: seq<int>, free: nat)
    requires Ready(p, counts, free) && counts[p.n - 1] > p.permissible
    ensures Below(After(p, counts, free, p.n), counts[p.n - 1]) <==> !FirstOfTheMostLoadedGains(p, counts, free)
  {
    if FirstOfTheMostLoadedGains(p, counts, free) {
      GainLifts(p, counts, free);
    } else if !Below(After(p, counts, free, p.n), counts[p.n - 1]) {
      LiftIsGain(p, counts, free);
    }
  }
}
