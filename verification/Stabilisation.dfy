/**
 What completed scheduler passes achieve together: the store settles after two of them and
 becomes level after finitely many more, whatever it held at first.
 */
module Stabilisation {
  import opened Sums
  import opened Allocation
  import opened Scheduler
  import opened Fsm
  import Balance
  import Maximum
  import Payers

  /** Every listed config is on exactly one live host, and nothing else is in the store. */
  ghost predicate Settled(a: Alloc, hosts: set<Host>, configs: set<Config>) {
    && (forall c :: c in configs ==> exists h :: h in hosts && c in Held(a, h) && OnlyHolder(a, h, c))
    && (forall h: Host :: h !in hosts ==> Held(a, h) == {})
    && (forall h: Host :: Held(a, h) <= configs)
  }

  ghost predicate OnlyHolder(a: Alloc, h: Host, c: Config) {
    forall g: Host :: g != h ==> c !in Held(a, g)
  }

  /** Every host holds the floor or the ceiling of the mean. */
  ghost predicate LevelStore(a: Alloc, hosts: set<Host>, configs: set<Config>)
    requires hosts != {}
  {
    var p := Balance.PlanFor(|hosts|, |configs|);
    forall h :: h in hosts ==> |Held(a, h)| == p.average || |Held(a, h)| == p.permissible
  }

  lemma OrderlyAndAssignedIsSettled(a: Alloc, hosts: set<Host>, configs: set<Config>)
    ensures Settled(a, hosts, configs) <==> Orderly(a, hosts, configs) && FreeIn(a, configs) == {}
  {
    if Orderly(a, hosts, configs) && FreeIn(a, configs) == {} {
      forall c | c in configs ensures exists h :: h in hosts && c in Held(a, h) && OnlyHolder(a, h, c) {
        assert c !in FreeIn(a, configs);
        var h: Host :| c in Held(a, h);
        assert OnlyHolder(a, h, c);
        assert h in hosts;
      }
    }
    if Settled(a, hosts, configs) {
      forall g: Host, h: Host | g != h ensures Held(a, g) !! Held(a, h) {
        forall c | c in Held(a, g) ensures c !in Held(a, h) {
          var k :| k in hosts && c in Held(a, k) && OnlyHolder(a, k, c);
        }
      }
    }
  }

  lemma SameHeldSameFigures(a: Alloc, b: Alloc, order: seq<Host>, configs: set<Config>)
    requires SameHeld(a, b)
    ensures CountsOf(a, order) == CountsOf(b, order) && FreeIn(a, configs) == FreeIn(b, configs)
  {
    forall i | 0 <= i < |order| ensures CountsOf(a, order)[i] == CountsOf(b, order)[i] {
      assert Held(a, order[i]) == Held(b, order[i]);
    }
    forall c ensures c in FreeIn(a, configs) <==> c in FreeIn(b, configs) {
      assert forall h: Host :: Held(a, h) == Held(b, h);
    }
  }

  /** The store a pass balances is orderly, and its figures are what the balancer assumes. */
  lemma PassIsReady(configs: set<Config>, hosts: seq<Host>, before: Alloc, commands: int, after: Alloc,
                    order: seq<Host>, cleaning: int) returns (mid: Alloc, p: Balance.Plan)
    requires PassBy(configs, hosts, before, commands, after, order, cleaning)
    ensures mid == CleanUp(before, hosts, configs) && Orderly(mid, Elements(hosts), configs)
    ensures |order| == |hosts| == |Elements(hosts)| && p == Balance.PlanFor(|order|, |configs|)
    ensures Balance.Ready(p, CountsOf(mid, order), |FreeIn(mid, configs)|)
    ensures Sum(CountsOf(mid, order)) + |FreeIn(mid, configs)| == |configs|
    ensures Times(p.n, p.average) == |configs| - |configs| % |hosts|
  {
    mid, p := CleanUp(before, hosts, configs), Balance.PlanFor(|order|, |configs|);
    CleanUpIsOrderly(before, hosts, configs);
    DistinctLength(order);
    DistinctLength(hosts);
    BalancerReady(mid, order, configs);
    CountsAddUp(mid, order, configs);
    Balance.PlanFits(|order|, |configs|);
  }

  /**
   One completed pass, whatever the store held: it leaves the store orderly, with no more unassigned
   configs than after the clean-up and at most as many as do not divide evenly, none if they do or if
   there are fewer configs than hosts; if any remain, every host holds the average; and no host moved
   further than the bounds allow.
   */
  lemma OnePass(configs: set<Config>, hosts: seq<Host>, before: Alloc, commands: int, after: Alloc)
    requires CompletedPass(configs, hosts, before, commands, after)
    ensures hosts != [] && Orderly(after, Elements(hosts), configs)
    ensures |FreeIn(after, configs)| <= |FreeIn(CleanUp(before, hosts, configs), configs)|
    ensures |FreeIn(after, configs)| <= |configs| % |hosts|
    ensures |configs| % |hosts| == 0 || |configs| < |hosts| ==> FreeIn(after, configs) == {}
    ensures FreeIn(after, configs) != {} ==> forall h :: h in hosts ==> |Held(after, h)| >= |configs| / |hosts|
    ensures forall h :: h in hosts ==>
      HostBounds(|Held(CleanUp(before, hosts, configs), h)|, |Held(after, h)|, |configs| / |hosts|)
  {
    var order, cleaning :| PassBy(configs, hosts, before, commands, after, order, cleaning);
    var mid, p := PassIsReady(configs, hosts, before, commands, after, order, cleaning);
    var counts, free := CountsOf(mid, order), |FreeIn(mid, configs)|;
    Balance.OnePassProgress(p, counts, free);
    Balance.PassBounds(p, counts, free);
    Balance.OnePassIsEnough(p.n, |configs|);
    var s := Balance.After(p, counts, free, p.n);
    forall h | h in hosts
      ensures FreeIn(after, configs) != {} ==> |Held(after, h)| >= p.average
      ensures HostBounds(|Held(mid, h)|, |Held(after, h)|, p.average)
    {
      var j := Position(order, hosts, h);
      assert CountsOf(after, order)[j] == s.held[j];
    }
  }

  /**
   At least the smaller of the old count and the average; never above the average if it was below;
   else at most one more.
   */
  ghost predicate HostBounds(had: int, has: int, average: int) {
    && has >= Balance.Min(had, average)
    && (had < average ==> has <= average)
    && (had >= average ==> has <= had + 1)
  }

  lemma Position(order: seq<Host>, hosts: seq<Host>, h: Host) returns (j: nat)
    requires Listing(order, Elements(hosts)) && h in hosts
    ensures j < |order| && order[j] == h
  {
    assert h in Elements(hosts);
    assert h in Elements(order);
    j :| 0 <= j < |order| && order[j] == h;
  }

  /**
   Self-stabilisation: from any store whatsoever, two completed passes over the same live hosts and
   the same config list leave every listed config on exactly one live host and nothing else.
   */
  lemma TwoPassesSettle(configs: set<Config>, hosts1: seq<Host>, hosts2: seq<Host>,
                        a: Alloc, k1: int, b: Alloc, k2: int, d: Alloc)
    requires CompletedPass(configs, hosts1, a, k1, b) && CompletedPass(configs, hosts2, b, k2, d)
    requires Elements(hosts1) == Elements(hosts2)
    ensures Settled(d, Elements(hosts2), configs)
  {
    OnePass(configs, hosts1, a, k1, b);
    OnePass(configs, hosts2, b, k2, d);
    var order, cleaning :| PassBy(configs, hosts2, b, k2, d, order, cleaning);
    var mid, p := PassIsReady(configs, hosts2, b, k2, d, order, cleaning);
    OrderlyNeedsNoCleanUp(b, hosts2, configs);
    SameHeldSameFigures(mid, b, order, configs);
    if FreeIn(b, configs) != {} {
      forall j | 0 <= j < p.n ensures CountsOf(mid, order)[j] >= p.average {
        assert order[j] in Elements(order);
        assert order[j] in Elements(hosts1);
        DistinctLength(hosts1);
      }
      Balance.SecondPassFinishes(p, CountsOf(mid, order), |FreeIn(mid, configs)|);
    }
    assert |FreeIn(d, configs)| == 0;
    OrderlyAndAssignedIsSettled(d, Elements(hosts2), configs);
  }

  /** The sum of the squared loads. */
  ghost function Energy(a: Alloc, hosts: seq<Host>): int {
    SumOver(h => |Held(a, h)| * |Held(a, h)|, hosts)
  }

  lemma EnergyOfOrder(a: Alloc, hosts: seq<Host>, order: seq<Host>)
    requires Distinct(hosts) && Listing(order, Elements(hosts))
    ensures Energy(a, hosts) == Squares(CountsOf(a, order))
  {
    var squared := (h: Host) => |Held(a, h)| * |Held(a, h)|;
    SquaresOfLoads(a, order);
    SumOverReordered(squared, hosts, order);
    assert Energy(a, hosts) == SumOver(squared, hosts);
  }

  lemma {:induction false} SquaresOfLoads(a: Alloc, order: seq<Host>)
    ensures Squares(CountsOf(a, order)) == SumOver(h => |Held(a, h)| * |Held(a, h)|, order)
  {
    if order != [] {
      SquaresOfLoads(a, order[1..]);
      assert CountsOf(a, order)[1..] == CountsOf(a, order[1..]);
    }
  }

  lemma LevelInOrder(a: Alloc, hosts: set<Host>, order: seq<Host>, configs: set<Config>)
    requires hosts != {} && Listing(order, hosts)
    ensures LevelStore(a, hosts, configs) <==> Balance.Level(Balance.PlanFor(|hosts|, |configs|), CountsOf(a, order))
  {
    var p := Balance.PlanFor(|hosts|, |configs|);
    if Balance.Level(p, CountsOf(a, order)) {
      forall h | h in hosts ensures |Held(a, h)| == p.average || |Held(a, h)| == p.permissible {
        assert h in Elements(order);
        var j :| 0 <= j < |order| && order[j] == h;
        assert CountsOf(a, order)[j] == |Held(a, h)|;
      }
    }
    if LevelStore(a, hosts, configs) {
      forall j | 0 <= j < |order|
        ensures CountsOf(a, order)[j] == p.average || CountsOf(a, order)[j] == p.permissible
      {
        assert order[j] in Elements(order);
      }
    }
  }

  /**
   A completed pass over a settled store keeps it settled.  It issues no command exactly when every
   host already holds the average or the permissible number; otherwise the squared loads shrink.
   */
  lemma SettledPass(configs: set<Config>, hosts: seq<Host>, listing: seq<Host>, a: Alloc, commands: int, b: Alloc)
    requires CompletedPass(configs, hosts, a, commands, b) && Settled(a, Elements(hosts), configs)
    requires Listing(listing, Elements(hosts))
    ensures Elements(hosts) != {} && Settled(b, Elements(hosts), configs)
    ensures commands == 0 <==> LevelStore(a, Elements(hosts), configs)
    ensures LevelStore(a, Elements(hosts), configs) ==> SameHeld(a, b)
    ensures !LevelStore(a, Elements(hosts), configs) ==> Energy(b, listing) < Energy(a, listing)
  {
    var order, cleaning :| PassBy(configs, hosts, a, commands, b, order, cleaning);
    assert order[0] in Elements(order);
    var mid, p := PassIsReady(configs, hosts, a, commands, b, order, cleaning);
    OrderlyAndAssignedIsSettled(a, Elements(hosts), configs);
    OrderlyNeedsNoCleanUp(a, hosts, configs);
    SameHeldSameFigures(mid, a, order, configs);
    Balance.PassConverges(p, CountsOf(mid, order));
    assert |FreeIn(b, configs)| == 0;
    OrderlyAndAssignedIsSettled(b, Elements(hosts), configs);
    LevelInOrder(a, Elements(hosts), order, configs);
    EnergyOfOrder(a, listing, order);
    EnergyOfOrder(b, listing, order);
  }

  /** A completed pass over a settled store gives no host more than some host held before. */
  lemma SettledPassKeepsMaximum(configs: set<Config>, hosts: seq<Host>, a: Alloc, commands: int, b: Alloc, h: Host)
    returns (g: Host)
    requires CompletedPass(configs, hosts, a, commands, b) && Settled(a, Elements(hosts), configs) && h in hosts
    ensures g in Elements(hosts) && |Held(b, h)| <= |Held(a, g)|
  {
    var order, cleaning :| PassBy(configs, hosts, a, commands, b, order, cleaning);
    var mid, p := PassIsReady(configs, hosts, a, commands, b, order, cleaning);
    OrderlyAndAssignedIsSettled(a, Elements(hosts), configs);
    OrderlyNeedsNoCleanUp(a, hosts, configs);
    SameHeldSameFigures(mid, a, order, configs);
    assert CountsOf(b, order) == Balance.After(p, CountsOf(a, order), 0, p.n).held;
    g := MostLoaded(p, a, b, order, hosts, h);
  }

  lemma MostLoaded(p: Balance.Plan, a: Alloc, b: Alloc, order: seq<Host>, hosts: seq<Host>, h: Host) returns (g: Host)
    requires Listing(order, Elements(hosts)) && h in hosts && Balance.Ready(p, CountsOf(a, order), 0)
    requires CountsOf(b, order) == Balance.After(p, CountsOf(a, order), 0, p.n).held
    ensures g in Elements(hosts) && |Held(b, h)| <= |Held(a, g)|
  {
    Maximum.AssignedPassKeepsMaximum(p, CountsOf(a, order), p.n);
    var j := Position(order, hosts, h);
    g := order[p.n - 1];
    assert g in Elements(order);
    assert CountsOf(b, order)[j] <= CountsOf(a, order)[p.n - 1];
  }

  /** The host held less than the average and holds as many as before. */
  ghost predicate LeftBehind(mid: Alloc, after: Alloc, h: Host, average: int) {
    |Held(mid, h)| == |Held(after, h)| < average
  }

  /**
   If a host ends a completed pass with two more than the ceiling of the mean or above, then at most
   one host that was below the average after the clean-up got nothing.
   */
  lemma OneLeftBehind(configs: set<Config>, hosts: seq<Host>, before: Alloc, commands: int, after: Alloc,
                      x: Host, y: Host, z: Host)
    requires CompletedPass(configs, hosts, before, commands, after) && x in hosts && y in hosts && z in hosts
    requires hosts != [] && LeftBehind(CleanUp(before, hosts, configs), after, x, |configs| / |hosts|)
    requires LeftBehind(CleanUp(before, hosts, configs), after, y, |configs| / |hosts|)
    requires |Held(after, z)| > Balance.PlanFor(|hosts|, |configs|).permissible + 1
    ensures x == y
  {
    var order, cleaning :| PassBy(configs, hosts, before, commands, after, order, cleaning);
    var mid, p := PassIsReady(configs, hosts, before, commands, after, order, cleaning);
    var counts, free := CountsOf(mid, order), |FreeIn(mid, configs)|;
    var i := Position(order, hosts, x);
    var j := Position(order, hosts, y);
    var k := Position(order, hosts, z);
    var end := Balance.After(p, counts, free, p.n);
    assert CountsOf(after, order) == end.held;
    assert CountsOf(after, order)[k] == end.held[k];
    assert CountsOf(after, order)[i] == end.held[i] && CountsOf(after, order)[j] == end.held[j];
    Payers.OneLeftBehind(p, counts, free, i, j, k);
  }

  // ----- when a pass lifts a host above the ceiling of the mean

  /** The hosts that hold at least so many configs. */
  ghost function Loaded(a: Alloc, hosts: set<Host>, low: int): set<Host> {
    set h | h in hosts && |Held(a, h)| >= low
  }

  lemma {:induction false} LoadedCount(a: Alloc, order: seq<Host>, low: int)
    requires Distinct(order)
    ensures |Loaded(a, Elements(order), low)| == CountAtLeast(CountsOf(a, order), low)
  {
    if order != [] {
      LoadedCount(a, order[1..], low);
      assert CountsOf(a, order)[1..] == CountsOf(a, order[1..]);
      assert order[0] !in Elements(order[1..]);
      assert Elements(order) == {order[0]} + Elements(order[1..]);
      OneMoreLoaded(a, Elements(order[1..]), order[0], low);
    }
  }

  lemma OneMoreLoaded(a: Alloc, hosts: set<Host>, h: Host, low: int)
    requires h !in hosts
    ensures |Loaded(a, {h} + hosts, low)| == (if |Held(a, h)| >= low then 1 else 0) + |Loaded(a, hosts, low)|
  {
    if |Held(a, h)| >= low {
      assert Loaded(a, {h} + hosts, low) == {h} + Loaded(a, hosts, low);
    } else {
      assert Loaded(a, {h} + hosts, low) == Loaded(a, hosts, low);
    }
  }

  ghost predicate WithinCeiling(a: Alloc, hosts: set<Host>, configs: set<Config>)
    requires hosts != {}
  {
    forall h :: h in hosts ==> |Held(a, h)| <= Balance.PlanFor(|hosts|, |configs|).permissible
  }

  /**
   More hosts hold the ceiling of the mean than hold less than its floor, and the configs that do not
   divide evenly outnumber the hosts once those below the floor are taken off twice.
   */
  ghost predicate Crowded(a: Alloc, hosts: set<Host>, configs: set<Config>)
    requires hosts != {}
  {
    var p := Balance.PlanFor(|hosts|, |configs|);
    var below := |hosts| - |Loaded(a, hosts, p.average)|;
    |Loaded(a, hosts, p.permissible)| > below && |configs| % |hosts| + 2 * below > |hosts|
  }

  lemma CrowdedCounts(a: Alloc, hosts: set<Host>, configs: set<Config>, order: seq<Host>, p: Balance.Plan, free: nat)
    requires hosts != {} && Listing(order, hosts) && p == Balance.PlanFor(|hosts|, |configs|)
    requires Sum(CountsOf(a, order)) + free == |configs|
    ensures Crowded(a, hosts, configs) <==> Maximum.TooManyAtTheCeiling(p, CountsOf(a, order), free)
  {
    DistinctLength(order);
    LoadedCount(a, order, p.average);
    LoadedCount(a, order, p.permissible);
    Balance.PlanFits(|hosts|, |configs|);
  }

  lemma CeilingOfCounts(a: Alloc, hosts: set<Host>, configs: set<Config>, order: seq<Host>)
    requires hosts != {} && Listing(order, hosts)
    ensures WithinCeiling(a, hosts, configs) <==>
      forall j :: 0 <= j < |order| ==> CountsOf(a, order)[j] <= Balance.PlanFor(|hosts|, |configs|).permissible
  {
    if WithinCeiling(a, hosts, configs) {
      forall j | 0 <= j < |order|
        ensures CountsOf(a, order)[j] <= Balance.PlanFor(|hosts|, |configs|).permissible
      {
        assert order[j] in Elements(order);
      }
    } else {
      var h :| h in hosts && |Held(a, h)| > Balance.PlanFor(|hosts|, |configs|).permissible;
      assert h in Elements(order);
      var j :| 0 <= j < |order| && order[j] == h;
      assert CountsOf(a, order)[j] == |Held(a, h)|;
    }
  }

  /**
   If no host holds more than the ceiling of the mean once the store is cleaned up, a completed pass
   lifts one above it exactly if the store is crowded.
   */
  lemma CeilingIsKept(configs: set<Config>, hosts: seq<Host>, before: Alloc, commands: int, after: Alloc)
    requires CompletedPass(configs, hosts, before, commands, after) && Elements(hosts) != {}
    requires WithinCeiling(CleanUp(before, hosts, configs), Elements(hosts), configs)
    ensures WithinCeiling(after, Elements(hosts), configs) <==>
      !Crowded(CleanUp(before, hosts, configs), Elements(hosts), configs)
  {
    var order, cleaning :| PassBy(configs, hosts, before, commands, after, order, cleaning);
    var mid, p := PassIsReady(configs, hosts, before, commands, after, order, cleaning);
    CeilingOfCounts(mid, Elements(hosts), configs, order);
    CeilingOfCounts(after, Elements(hosts), configs, order);
    CrowdedCounts(mid, Elements(hosts), configs, order, p, |FreeIn(mid, configs)|);
    Maximum.CeilingIsExceeded(p, CountsOf(mid, order), |FreeIn(mid, configs)|);
  }

  // ----- a store that is crowded

  /** A store in which the hosts of the list hold so many configs each, dealt out from the list. */
  ghost function Dealt(order: seq<Host>, counts: seq<int>, list: seq<Config>): Alloc
    requires |order| == |counts| && (forall j :: 0 <= j < |counts| ==> counts[j] >= 0) && Sum(counts) <= |list|
    decreases |order|
  {
    if order == [] then map[]
    else
      NonNegative(counts[1..]);
      Dealt(order[1..], counts[1..], list[counts[0]..])[order[0] := Elements(list[..counts[0]])]
  }

  lemma {:induction false} NonNegative(counts: seq<int>)
    requires forall j :: 0 <= j < |counts| ==> counts[j] >= 0
    ensures Sum(counts) >= 0
  {
    if counts != [] {
      NonNegative(counts[1..]);
    }
  }

  /** These hosts hold so many of these configs each, and nobody else holds any. */
  ghost predicate Shares(a: Alloc, order: seq<Host>, counts: seq<int>, configs: set<Config>) {
    Orderly(a, Elements(order), configs) && CountsOf(a, order) == counts
  }

  lemma HeldInUpdate(b: Alloc, h: Host, first: set<Config>, g: Host)
    ensures Held(b[h := first], g) == if g == h then first else Held(b, g)
  {}

  lemma OneMoreIsOrderly(b: Alloc, h: Host, hosts: set<Host>, first: set<Config>, rest: set<Config>)
    requires Orderly(b, hosts, rest) && first !! rest && h !in hosts
    ensures Orderly(b[h := first], {h} + hosts, first + rest)
  {
    var a := b[h := first];
    forall g: Host, k: Host | g != k ensures Held(a, g) !! Held(a, k) {
      HeldInUpdate(b, h, first, g);
      HeldInUpdate(b, h, first, k);
      assert Held(b, g) <= rest && Held(b, k) <= rest && Held(b, g) !! Held(b, k);
    }
    forall g: Host ensures Held(a, g) <= first + rest && (g !in {h} + hosts ==> Held(a, g) == {}) {
      HeldInUpdate(b, h, first, g);
      assert Held(b, g) <= rest;
    }
  }

  /** A host that got the first configs joins hosts that share the rest. */
  lemma OneMoreDealt(b: Alloc, order: seq<Host>, counts: seq<int>, first: set<Config>, rest: set<Config>)
    requires order != [] && |order| == |counts| && Distinct(order) && Shares(b, order[1..], counts[1..], rest)
    requires first !! rest && |first| == counts[0]
    ensures Shares(b[order[0] := first], order, counts, first + rest)
  {
    var a, h := b[order[0] := first], order[0];
    assert order == [h] + order[1..];
    assert Elements(order) == {h} + Elements(order[1..]);
    OneMoreIsOrderly(b, h, Elements(order[1..]), first, rest);
    forall j | 0 <= j < |order| ensures CountsOf(a, order)[j] == counts[j] {
      HeldInUpdate(b, h, first, order[j]);
      if j > 0 {
        assert CountsOf(b, order[1..])[j - 1] == counts[1..][j - 1];
      }
    }
  }

  lemma {:induction false} DealtIsOrderly(order: seq<Host>, counts: seq<int>, list: seq<Config>)
    requires |order| == |counts| && (forall j :: 0 <= j < |counts| ==> counts[j] >= 0) && Sum(counts) <= |list|
    requires Distinct(order) && Distinct(list)
    ensures Shares(Dealt(order, counts, list), order, counts, Elements(list))
    decreases |order|
  {
    if order != [] {
      NonNegative(counts[1..]);
      var rest := list[counts[0]..];
      DealtIsOrderly(order[1..], counts[1..], rest);
      SplitList(list, counts[0]);
      OneMoreDealt(Dealt(order[1..], counts[1..], rest), order, counts, Elements(list[..counts[0]]), Elements(rest));
    }
  }

  lemma SplitList(list: seq<Config>, k: nat)
    requires Distinct(list) && k <= |list|
    ensures Elements(list) == Elements(list[..k]) + Elements(list[k..])
    ensures Elements(list[..k]) !! Elements(list[k..]) && |Elements(list[..k])| == k
  {
    assert list == list[..k] + list[k..];
    DistinctLength(list[..k]);
  }

  /** The figures of a dealt-out store, and of the same store cleaned up. */
  lemma DealtFigures(order: seq<Host>, counts: seq<int>, list: seq<Config>)
    requires |order| == |counts| && (forall j :: 0 <= j < |counts| ==> counts[j] >= 0) && Sum(counts) <= |list|
    requires Distinct(order) && Distinct(list)
    ensures var a, configs := Dealt(order, counts, list), Elements(list);
      && Shares(a, order, counts, configs) && |FreeIn(a, configs)| == |list| - Sum(counts)
      && CountsOf(CleanUp(a, order, configs), order) == counts
      && |FreeIn(CleanUp(a, order, configs), configs)| == |list| - Sum(counts)
  {
    var a, configs := Dealt(order, counts, list), Elements(list);
    DealtIsOrderly(order, counts, list);
    DistinctLength(list);
    CountsAddUp(a, order, configs);
    OrderlyNeedsNoCleanUp(a, order, configs);
    SameHeldSameFigures(CleanUp(a, order, configs), a, order, configs);
  }

  lemma PassOfFigures(configs: set<Config>, order: seq<Host>, a: Alloc, b: Alloc, s: Balance.Load)
    requires order != [] && Distinct(order) && s.commands >= 1 && Orderly(b, Elements(order), configs)
    requires s == BalancedCounts(configs, CleanUp(a, order, configs), order)
    requires AscendingCounts(CountsOf(CleanUp(a, order, configs), order))
    requires CountsOf(b, order) == s.held && |FreeIn(b, configs)| == s.free
    ensures CompletedPass(configs, order, a, s.commands, b)
  {
    assert PassBy(configs, order, a, s.commands, b, order, 0);
  }

  /** A completed pass between stores that were dealt out, when something is commanded. */
  lemma DealtPass(order: seq<Host>, list: seq<Config>, p: Balance.Plan, counts: seq<int>, free: nat)
    returns (a: Alloc, b: Alloc)
    requires order != [] && Distinct(order) && Distinct(list) && p == Balance.PlanFor(|order|, |list|)
    requires Balance.Ready(p, counts, free) && Sum(counts) + free == |list|
    requires Balance.Issued(Balance.After(p, counts, free, p.n), 1)
    ensures CompletedPass(Elements(list), order, a, Balance.After(p, counts, free, p.n).commands, b)
    ensures CountsOf(a, order) == counts && CountsOf(b, order) == Balance.After(p, counts, free, p.n).held
    ensures Orderly(a, Elements(order), Elements(list))
  {
    var s := Balance.After(p, counts, free, p.n);
    Balance.AlwaysKept(p, counts, free, p.n);
    Balance.PassBounds(p, counts, free);
    a, b := Dealt(order, counts, list), Dealt(order, s.held, list);
    DealtFigures(order, counts, list);
    DealtFigures(order, s.held, list);
    DistinctLength(list);
    PassOfFigures(Elements(list), order, a, b, s);
  }

  /**
   The smallest host of three or more idle, all others one above what is free: a store from which a
   completed pass gives a host more than any host held before.
   */
  lemma PassMayLift(order: seq<Host>, list: seq<Config>, free: nat) returns (a: Alloc, commands: int, b: Alloc, h: Host)
    requires Distinct(order) && |order| >= 3 && free >= 1
    requires Distinct(list) && |list| == Times(|order| - 1, free + 1) + free
    ensures CompletedPass(Elements(list), order, a, commands, b) && Orderly(a, Elements(order), Elements(list))
    ensures h in order && forall g :: g in order ==> |Held(a, g)| < |Held(b, h)|
    ensures Elements(order) != {} && WithinCeiling(a, Elements(order), Elements(list))
    ensures forall k: int, c: Alloc :: CompletedPass(Elements(list), order, a, k, c) ==>
      !WithinCeiling(c, Elements(order), Elements(list))
  {
    var n := |order|;
    var p, counts := Maximum.PassMayRaiseTheMaximum(n, free);
    Balance.PlanIsUnique(p, n, |list|);
    var s := Balance.After(p, counts, free, n);
    a, b := DealtPass(order, list, p, counts, free);
    commands, h := s.commands, order[1];
    assert |Held(b, h)| == CountsOf(b, order)[1] == s.held[1];
    forall g | g in order ensures |Held(a, g)| < |Held(b, h)| {
      var j :| 0 <= j < n && order[j] == g;
      assert |Held(a, g)| == CountsOf(a, order)[j] == counts[j] <= counts[n - 1];
    }
    assert order[0] in Elements(order);
    DistinctLength(order);
    DistinctLength(list);
    CeilingOfCounts(a, Elements(order), Elements(list), order);
    assert !WithinCeiling(b, Elements(order), Elements(list)) by { assert h in Elements(order); }
    LiftsFromHere(Elements(list), order, a, commands, b);
  }

  /** Whether a completed pass lifts a host above the ceiling is decided by the store it starts from. */
  lemma LiftsFromHere(configs: set<Config>, hosts: seq<Host>, a: Alloc, commands: int, b: Alloc)
    requires CompletedPass(configs, hosts, a, commands, b) && Orderly(a, Elements(hosts), configs)
    requires Elements(hosts) != {} && WithinCeiling(a, Elements(hosts), configs)
    requires !WithinCeiling(b, Elements(hosts), configs)
    ensures forall k: int, c: Alloc :: CompletedPass(configs, hosts, a, k, c) ==>
      !WithinCeiling(c, Elements(hosts), configs)
  {
    OrderlyNeedsNoCleanUp(a, hosts, configs);
    var mid := CleanUp(a, hosts, configs);
    forall h | h in Elements(hosts) ensures |Held(mid, h)| == |Held(a, h)| { assert Held(mid, h) == Held(a, h); }
    CeilingIsKept(configs, hosts, a, commands, b);
    forall k: int, c: Alloc | CompletedPass(configs, hosts, a, k, c)
      ensures !WithinCeiling(c, Elements(hosts), configs)
    {
      CeilingIsKept(configs, hosts, a, k, c);
    }
  }

  /** Some completed pass over these live hosts, listed in whatever order, leads from a to b. */
  ghost predicate PassBetween(configs: set<Config>, hosts: set<Host>, a: Alloc, b: Alloc) {
    exists order: seq<Host>, commands: int :: Elements(order) == hosts && CompletedPass(configs, order, a, commands, b)
  }

  ghost predicate Passes(configs: set<Config>, hosts: set<Host>, run: seq<Alloc>) {
    forall i :: 0 <= i < |run| - 1 ==> PassBetween(configs, hosts, run[i], run[i + 1])
  }

  lemma SettledEnergy(a: Alloc, listing: seq<Host>, configs: set<Config>)
    requires Distinct(listing) && Settled(a, Elements(listing), configs)
    ensures 0 <= Energy(a, listing) <= |configs| * |configs|
  {
    OrderlyAndAssignedIsSettled(a, Elements(listing), configs);
    CountsAddUp(a, listing, configs);
    EnergyOfOrder(a, listing, listing);
    SquaresBound(CountsOf(a, listing));
  }

  lemma SettledStep(configs: set<Config>, listing: seq<Host>, a: Alloc, b: Alloc)
    requires Distinct(listing) && PassBetween(configs, Elements(listing), a, b)
    requires Settled(a, Elements(listing), configs)
    ensures Elements(listing) != {} && Settled(b, Elements(listing), configs)
    ensures LevelStore(a, Elements(listing), configs) ==> SameHeld(a, b)
    ensures !LevelStore(a, Elements(listing), configs) ==> Energy(b, listing) < Energy(a, listing)
  {
    var order: seq<Host>, commands: int :|
      Elements(order) == Elements(listing) && CompletedPass(configs, order, a, commands, b);
    SettledPass(configs, order, listing, a, commands, b);
  }

  lemma SameHeldSameLevel(a: Alloc, b: Alloc, hosts: set<Host>, configs: set<Config>)
    requires SameHeld(a, b) && hosts != {} && LevelStore(a, hosts, configs)
    ensures LevelStore(b, hosts, configs)
  {
    forall h | h in hosts ensures |Held(b, h)| == |Held(a, h)| {
      assert Held(b, h) == Held(a, h);
    }
  }

  /** From the third store of a run on, everything is settled, and each pass levels or lowers the energy. */
  lemma {:induction false} RunSettles(configs: set<Config>, listing: seq<Host>, run: seq<Alloc>, i: nat)
    requires Distinct(listing) && Passes(configs, Elements(listing), run) && 2 <= i < |run|
    ensures Elements(listing) != {} && Settled(run[i], Elements(listing), configs)
    ensures LevelStore(run[i], Elements(listing), configs)
      || Energy(run[i], listing) <= |configs| * |configs| - (i - 2)
  {
    if i == 2 {
      assert PassBetween(configs, Elements(listing), run[0], run[0 + 1]);
      assert PassBetween(configs, Elements(listing), run[1], run[1 + 1]);
      var o1: seq<Host>, k1: int :| Elements(o1) == Elements(listing) && CompletedPass(configs, o1, run[0], k1, run[1]);
      var o2: seq<Host>, k2: int :| Elements(o2) == Elements(listing) && CompletedPass(configs, o2, run[1], k2, run[2]);
      TwoPassesSettle(configs, o1, o2, run[0], k1, run[1], k2, run[2]);
      OnePass(configs, o2, run[1], k2, run[2]);
      assert o2[0] in Elements(o2);
      SettledEnergy(run[2], listing, configs);
    } else {
      RunSettles(configs, listing, run, i - 1);
      assert PassBetween(configs, Elements(listing), run[i - 1], run[i - 1 + 1]);
      SettledStep(configs, listing, run[i - 1], run[i]);
      if LevelStore(run[i - 1], Elements(listing), configs) {
        SameHeldSameLevel(run[i - 1], run[i], Elements(listing), configs);
      }
    }
  }

  /**
   Convergence: from any store, repeated completed passes over the same live hosts and config list
   reach a settled and level store within a bound that only depends on the number of configs, and
   no later pass moves anything.
   */
  lemma RunConvergesAndStays(configs: set<Config>, listing: seq<Host>, run: seq<Alloc>, i: nat)
    requires Distinct(listing) && Passes(configs, Elements(listing), run)
    requires 3 + |configs| * |configs| <= i < |run|
    ensures Elements(listing) != {}
    ensures Settled(run[i], Elements(listing), configs) && LevelStore(run[i], Elements(listing), configs)
    ensures i + 1 < |run| ==> SameHeld(run[i], run[i + 1])
  {
    RunSettles(configs, listing, run, i);
    SettledEnergy(run[i], listing, configs);
    if i + 1 < |run| {
      assert PassBetween(configs, Elements(listing), run[i], run[i + 1]);
      SettledStep(configs, listing, run[i], run[i + 1]);
    }
  }

  /**
   Cluster safety: whatever the leader logged since the store was empty, in passes that completed or
   were cut short and in peer removals, replicas that hold what one prefix of that log left run at
   most one live handler per config between them.
   */
  lemma ClusterSafety(leader: Cluster, replicas: seq<Replica>, k: nat, x: int, y: int, i: int, j: int)
    requires leader.Valid() && leader.origin == map[] && k <= |leader.log|
    requires forall r :: 0 <= r < |replicas| ==>
      replicas[r].Valid() && SameHeld(replicas[r].Allocation(), Replay(map[], leader.log, k))
    requires forall r, s :: 0 <= r < s < |replicas| ==> replicas[r].name != replicas[s].name
    requires 0 <= x < |replicas| && 0 <= i < |replicas[x].handlers| && replicas[x].Live(i)
    requires 0 <= y < |replicas| && 0 <= j < |replicas[y].handlers| && replicas[y].Live(j)
    requires replicas[x].handlers[i].config == replicas[y].handlers[j].config
    ensures x == y && i == j
  {
    assert SafeFrom(map[], leader.log, |leader.log|) by {
      assert leader.store == Replay(leader.origin, leader.log, |leader.log|);
    }
    AtMostOneHandlerPerConfig(replicas, leader.log, k, x, y, i, j);
  }
}
