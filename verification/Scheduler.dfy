/**
 The leader's scheduler: it turns the difference between what the store holds and what the
 hosts should hold into assign and remove commands.
 */
module Scheduler {
  import opened Sums
  import opened Allocation
  import opened Wrappers
  import Balance

  // ----- what a pass means

  /** Only live hosts hold configs, only listed ones, and no config twice. */
  ghost predicate Orderly(a: Alloc, hosts: set<Host>, configs: set<Config>) {
    && Single(a)
    && (forall h: Host :: Held(a, h) <= configs)
    && (forall h: Host :: h !in hosts ==> Held(a, h) == {})
  }

  ghost function FreeIn(a: Alloc, configs: set<Config>): set<Config> {
    set c | c in configs && Unheld(a, c)
  }

  ghost function CountsOf(a: Alloc, order: seq<Host>): seq<int> {
    seq(|order|, i requires 0 <= i < |order| => |Held(a, order[i])|)
  }

  /** The store once the dead hosts gave up everything. */
  function Emptied(a: Alloc, dead: set<Host>): Alloc {
    map h | h in a :: if h in dead then {} else a[h]
  }

  /** The listed configs that none of the first k hosts holds. */
  function Unclaimed(a: Alloc, hosts: seq<Host>, configs: set<Config>, k: nat): set<Config>
    requires k <= |hosts|
  {
    if k == 0 then configs else Unclaimed(a, hosts, configs, k - 1) - Held(a, hosts[k - 1])
  }

  /** The store once the first k hosts kept what is still unclaimed and gave up the rest. */
  function Claims(a: Alloc, hosts: seq<Host>, configs: set<Config>, k: nat): Alloc
    requires k <= |hosts|
  {
    if k == 0 then a else
      Minus(Claims(a, hosts, configs, k - 1), hosts[k - 1],
            Held(a, hosts[k - 1]) - Unclaimed(a, hosts, configs, k - 1))
  }

  /** What a pass balances: no dead hosts, no unlisted configs, the first holder keeps a shared config. */
  function CleanUp(a: Alloc, hosts: seq<Host>, configs: set<Config>): Alloc {
    Claims(Emptied(a, a.Keys - set h | h in hosts), hosts, configs, |hosts|)
  }

  ghost predicate AscendingCounts(counts: seq<int>) {
    forall i, j :: 0 <= i <= j < |counts| ==> counts[i] <= counts[j]
  }

  /** Where the balancer ends, started on store `mid` with the hosts in the given order. */
  ghost function BalancedCounts(configs: set<Config>, mid: Alloc, order: seq<Host>): Balance.Load
    requires order != []
  {
    BalancedUpTo(configs, mid, order, |order|)
  }

  ghost function BalancedUpTo(configs: set<Config>, mid: Alloc, order: seq<Host>, k: nat): (s: Balance.Load)
    requires order != [] && k <= |order|
    ensures Balance.Shape(Balance.PlanFor(|order|, |configs|), s)
  {
    Balance.After(Balance.PlanFor(|order|, |configs|), CountsOf(mid, order), |FreeIn(mid, configs)|, k)
  }

  /** One completed pass, balancing the hosts in this order after `cleaning` clean-up commands. */
  ghost predicate PassBy(configs: set<Config>, hosts: seq<Host>, before: Alloc, commands: int, after: Alloc,
                         order: seq<Host>, cleaning: int)
  {
    && order != [] && Listing(order, Elements(hosts)) && Distinct(hosts)
    && (Orderly(before, Elements(hosts), configs) ==> cleaning == 0)
    && Orderly(after, Elements(hosts), configs)
    && Balanced(configs, CleanUp(before, hosts, configs), order, after, commands - cleaning)
  }

  /** The balancer, started on store `mid` with the hosts in ascending order, led to this store by so many commands. */
  ghost predicate Balanced(configs: set<Config>, mid: Alloc, order: seq<Host>, after: Alloc, commands: int)
    requires order != []
  {
    var end := BalancedCounts(configs, mid, order);
    && AscendingCounts(CountsOf(mid, order))
    && CountsOf(after, order) == end.held
    && |FreeIn(after, configs)| == end.free
    && commands == end.commands
    && (end.commands == 0 ==> after == mid)
  }

  /** A pass that ran to its end without a raft error, having issued so many commands. */
  ghost predicate CompletedPass(configs: set<Config>, hosts: seq<Host>, before: Alloc, commands: int, after: Alloc) {
    exists order, cleaning :: PassBy(configs, hosts, before, commands, after, order, cleaning)
  }

  // ----- facts about orderly stores

  lemma MinusHeld(a: Alloc, h: Host, s: set<Config>, g: Host)
    ensures Held(Minus(a, h, s), g) == if g == h then Held(a, h) - s else Held(a, g)
  {}

  lemma PlusHeld(a: Alloc, h: Host, s: set<Config>, g: Host)
    ensures Held(Plus(a, h, s), g) == if g == h then Held(a, h) + s else Held(a, g)
  {}

  lemma FreeAfterMinus(a: Alloc, hosts: set<Host>, configs: set<Config>, h: Host, s: set<Config>)
    requires Orderly(a, hosts, configs) && s <= Held(a, h)
    ensures Orderly(Minus(a, h, s), hosts, configs)
    ensures FreeIn(Minus(a, h, s), configs) == FreeIn(a, configs) + s
    ensures FreeIn(a, configs) !! s
  {
    var b := Minus(a, h, s);
    forall g: Host ensures Held(b, g) == if g == h then Held(a, h) - s else Held(a, g) { MinusHeld(a, h, s, g); }
    forall d ensures d in FreeIn(b, configs) <==> d in FreeIn(a, configs) + s {
      if d !in s && Unheld(b, d) {
        forall g: Host ensures d !in Held(a, g) { assert d !in Held(b, g); }
      }
    }
  }

  lemma FreeAfterPlus(a: Alloc, hosts: set<Host>, configs: set<Config>, h: Host, s: set<Config>)
    requires Orderly(a, hosts, configs) && s <= FreeIn(a, configs) && h in hosts
    ensures Orderly(Plus(a, h, s), hosts, configs)
    ensures FreeIn(Plus(a, h, s), configs) == FreeIn(a, configs) - s
    ensures Held(a, h) !! s
  {
    var b := Plus(a, h, s);
    forall g: Host ensures Held(b, g) == if g == h then Held(a, h) + s else Held(a, g) { PlusHeld(a, h, s, g); }
    forall d ensures d in FreeIn(b, configs) <==> d in FreeIn(a, configs) - s {
      if d !in s && Unheld(b, d) {
        forall g: Host ensures d !in Held(a, g) { assert d !in Held(b, g); }
      }
    }
  }

  lemma StillUnheld(a: Alloc, configs: set<Config>, h: Host, s: set<Config>, c: Config)
    requires c in FreeIn(a, configs) && c !in s
    ensures SafeStep(Plus(a, h, s), AssignCmd(h, c))
  {
    forall g: Host ensures c !in Held(Plus(a, h, s), g) { PlusHeld(a, h, s, g); }
  }

  ghost function HeldBy(a: Alloc, order: seq<Host>): set<Config> {
    if order == [] then {} else Held(a, order[0]) + HeldBy(a, order[1..])
  }

  lemma {:induction false} HeldByMembers(a: Alloc, order: seq<Host>, c: Config)
    ensures c in HeldBy(a, order) <==> exists h :: h in order && c in Held(a, h)
  {
    if order != [] {
      HeldByMembers(a, order[1..], c);
      assert order == [order[0]] + order[1..];
    }
  }

  lemma {:induction false} HeldBySize(a: Alloc, order: seq<Host>)
    requires Single(a) && Distinct(order)
    ensures Sum(CountsOf(a, order)) == |HeldBy(a, order)|
  {
    if order != [] {
      HeldBySize(a, order[1..]);
      assert CountsOf(a, order)[1..] == CountsOf(a, order[1..]);
      forall c | c in HeldBy(a, order[1..]) ensures c !in Held(a, order[0]) {
        HeldByMembers(a, order[1..], c);
        var h :| h in order[1..] && c in Held(a, h);
        assert h != order[0];
      }
      assert Held(a, order[0]) * HeldBy(a, order[1..]) == {};
    }
  }

  /** Every listed config is held exactly once or free: the counts add up. */
  lemma CountsAddUp(a: Alloc, order: seq<Host>, configs: set<Config>)
    requires Distinct(order) && Orderly(a, Elements(order), configs)
    ensures Sum(CountsOf(a, order)) + |FreeIn(a, configs)| == |configs|
  {
    HeldBySize(a, order);
    forall c ensures c in HeldBy(a, order) <==> c in configs && !Unheld(a, c) {
      HeldByMembers(a, order, c);
      if c in configs && !Unheld(a, c) {
        var h: Host :| c in Held(a, h);
        assert h in Elements(order);
      }
    }
    assert configs == HeldBy(a, order) + FreeIn(a, configs);
    assert HeldBy(a, order) * FreeIn(a, configs) == {};
  }

  lemma BalancerReady(a: Alloc, order: seq<Host>, configs: set<Config>)
    requires order != [] && Distinct(order) && Orderly(a, Elements(order), configs)
    requires AscendingCounts(CountsOf(a, order))
    ensures Balance.Ready(Balance.PlanFor(|order|, |configs|), CountsOf(a, order), |FreeIn(a, configs)|)
  {
    CountsAddUp(a, order, configs);
    Balance.PlanFits(|order|, |configs|);
  }

  lemma EnoughToRelease(configs: set<Config>, mid: Alloc, order: seq<Host>, i: nat)
    requires i < |order| && Distinct(order) && Orderly(mid, Elements(order), configs)
    requires AscendingCounts(CountsOf(mid, order))
    ensures var p, s := Balance.PlanFor(|order|, |configs|), BalancedUpTo(configs, mid, order, i);
      Balance.Released(p, s, i) <= s.held[Balance.Advance(p, s).0]
  {
    BalancerReady(mid, order, configs);
    Balance.ReleaseIsSound(Balance.PlanFor(|order|, |configs|), CountsOf(mid, order), |FreeIn(mid, configs)|, i);
  }

  // ----- facts about the clean-up

  lemma EmptyOneMore(a: Alloc, dead: set<Host>, h: Host)
    ensures Emptied(a, {}) == a
    ensures var e := Emptied(a, dead); Minus(e, h, Held(e, h)) == Emptied(a, dead + {h})
  {
    var e := Emptied(a, dead);
    if h in a {
      assert e[h] - e[h] == {};
    }
  }

  ghost predicate AllIdle(a: Alloc, nodes: seq<Host>) {
    forall i :: 0 <= i < |nodes| ==> Held(a, nodes[i]) == {}
  }

  lemma IdleStays(a: Alloc, nodes: seq<Host>, i: nat, dead: set<Host>)
    requires i < |nodes|
    ensures AllIdle(a, nodes) ==> Held(Emptied(a, dead), nodes[i]) == {}
  {}

  lemma {:induction false} ClaimsOfOthers(a: Alloc, hosts: seq<Host>, configs: set<Config>, k: nat, h: Host)
    requires k <= |hosts| && forall j :: 0 <= j < k ==> hosts[j] != h
    ensures Held(Claims(a, hosts, configs, k), h) == Held(a, h)
  {
    if k > 0 {
      ClaimsOfOthers(a, hosts, configs, k - 1, h);
    }
  }

  lemma {:induction false} ClaimsOfHost(a: Alloc, hosts: seq<Host>, configs: set<Config>, k: nat, j: nat)
    requires Distinct(hosts) && j < k <= |hosts|
    ensures Held(Claims(a, hosts, configs, k), hosts[j]) == Held(a, hosts[j]) * Unclaimed(a, hosts, configs, j)
  {
    var before, given := Claims(a, hosts, configs, k - 1), Held(a, hosts[k - 1]) - Unclaimed(a, hosts, configs, k - 1);
    MinusHeld(before, hosts[k - 1], given, hosts[j]);
    if j == k - 1 {
      ClaimsOfOthers(a, hosts, configs, j, hosts[j]);
    } else {
      ClaimsOfHost(a, hosts, configs, k - 1, j);
    }
  }

  lemma {:induction false} UnclaimedMembers(a: Alloc, hosts: seq<Host>, configs: set<Config>, k: nat, c: Config)
    requires k <= |hosts|
    ensures c in Unclaimed(a, hosts, configs, k) <==> c in configs && forall j :: 0 <= j < k ==> c !in Held(a, hosts[j])
  {
    if k > 0 {
      UnclaimedMembers(a, hosts, configs, k - 1, c);
    }
  }

  lemma EmptiedHeld(a: Alloc, hosts: seq<Host>, h: Host)
    ensures Held(Emptied(a, a.Keys - set g | g in hosts), h) == if h in hosts then Held(a, h) else {}
  {}

  /** The k-th host is the first in the list to hold the config. */
  ghost predicate FirstHolder(a: Alloc, hosts: seq<Host>, c: Config, k: int) {
    0 <= k < |hosts| && c in Held(a, hosts[k]) && forall j :: 0 <= j < k ==> c !in Held(a, hosts[j])
  }

  /** Who holds what after the clean-up: a listed config stays with its first live holder. */
  lemma CleanUpHeld(a: Alloc, hosts: seq<Host>, configs: set<Config>, h: Host, c: Config)
    requires Distinct(hosts)
    ensures c in Held(CleanUp(a, hosts, configs), h) <==>
      c in configs && exists k :: FirstHolder(a, hosts, c, k) && hosts[k] == h
  {
    var e := Emptied(a, a.Keys - set g | g in hosts);
    EmptiedHeld(a, hosts, h);
    if h !in hosts {
      ClaimsOfOthers(e, hosts, configs, |hosts|, h);
    } else {
      var k :| 0 <= k < |hosts| && hosts[k] == h;
      ClaimsOfHost(e, hosts, configs, |hosts|, k);
      UnclaimedMembers(e, hosts, configs, k, c);
      forall j | 0 <= j < k ensures Held(e, hosts[j]) == Held(a, hosts[j]) { EmptiedHeld(a, hosts, hosts[j]); }
    }
  }

  /** Whatever the store held, the clean-up leaves it orderly. */
  lemma CleanUpIsOrderly(a: Alloc, hosts: seq<Host>, configs: set<Config>)
    requires Distinct(hosts)
    ensures Orderly(CleanUp(a, hosts, configs), Elements(hosts), configs)
    ensures FreeIn(CleanUp(a, hosts, configs), configs)
      == Unclaimed(Emptied(a, a.Keys - set g | g in hosts), hosts, configs, |hosts|)
  {
    var m := CleanUp(a, hosts, configs);
    var e := Emptied(a, a.Keys - set g | g in hosts);
    forall g: Host, h: Host, c: Config | c in Held(m, g) && c in Held(m, h) ensures g == h {
      CleanUpHeld(a, hosts, configs, g, c);
      CleanUpHeld(a, hosts, configs, h, c);
    }
    forall h: Host ensures Held(m, h) <= configs && (h !in Elements(hosts) ==> Held(m, h) == {}) {
      forall c | c in Held(m, h) ensures c in configs && h in hosts { CleanUpHeld(a, hosts, configs, h, c); }
    }
    forall c ensures c in FreeIn(m, configs) <==> c in Unclaimed(e, hosts, configs, |hosts|) {
      UnclaimedMembers(e, hosts, configs, |hosts|, c);
      forall h: Host ensures Held(e, h) == if h in hosts then Held(a, h) else {} { EmptiedHeld(a, hosts, h); }
      if c in configs && Unheld(m, c) && exists j :: 0 <= j < |hosts| && c in Held(a, hosts[j]) {
        var k := FindFirstHolder(a, hosts, c);
        CleanUpHeld(a, hosts, configs, hosts[k], c);
        assert false;
      }
      if c in Unclaimed(e, hosts, configs, |hosts|) {
        forall h: Host ensures c !in Held(m, h) { CleanUpHeld(a, hosts, configs, h, c); }
      }
    }
  }

  lemma FindFirstHolder(a: Alloc, hosts: seq<Host>, c: Config) returns (k: nat)
    requires exists j :: 0 <= j < |hosts| && c in Held(a, hosts[j])
    ensures FirstHolder(a, hosts, c, k)
  {
    k := 0;
    while c !in Held(a, hosts[k])
      invariant k < |hosts| && forall j :: 0 <= j < k ==> c !in Held(a, hosts[j])
      decreases |hosts| - k
    {
      k := k + 1;
    }
  }

  /** An orderly store needs no clean-up. */
  lemma OrderlyNeedsNoCleanUp(a: Alloc, hosts: seq<Host>, configs: set<Config>)
    requires Distinct(hosts) && Orderly(a, Elements(hosts), configs)
    ensures SameHeld(CleanUp(a, hosts, configs), a)
  {
    forall h: Host ensures Held(CleanUp(a, hosts, configs), h) == Held(a, h) {
      forall c ensures c in Held(CleanUp(a, hosts, configs), h) <==> c in Held(a, h) {
        CleanUpHeld(a, hosts, configs, h, c);
        if c in Held(a, h) {
          assert h in Elements(hosts);
          var k :| 0 <= k < |hosts| && hosts[k] == h;
          assert FirstHolder(a, hosts, c, k);
        }
      }
    }
  }

  // ----- the balancer's state

  function QuantityOf(quantity: map<Host, int>, h: Host): int {
    if h in quantity then quantity[h] else 0
  }

  /** The same counts, with k more configs for one host. */
  function Raised(quantity: map<Host, int>, h: Host, k: int): map<Host, int> {
    if k == 0 then quantity else quantity[h := QuantityOf(quantity, h) + k]
  }

  lemma RaisedQuantity(quantity: map<Host, int>, h: Host, k: int, g: Host)
    ensures QuantityOf(Raised(quantity, h, k), g) == QuantityOf(quantity, g) + (if g == h then k else 0)
  {}

  lemma LoweredOneMore(quantity: map<Host, int>, h: Host, k: nat)
    ensures var q := Raised(quantity, h, 0 - k); q[h := QuantityOf(q, h) - 1] == Raised(quantity, h, 0 - k - 1)
  {}

  lemma RaisedOneMore(quantity: map<Host, int>, h: Host, k: nat)
    ensures var q := Raised(quantity, h, k); q[h := QuantityOf(q, h) + 1] == Raised(quantity, h, k + 1)
  {}

  predicate IsLeastLoaded(quantity: map<Host, int>, h: Host, hosts: set<Host>) {
    forall g :: g in hosts ==> QuantityOf(quantity, h) <= QuantityOf(quantity, g)
  }

  ghost predicate AscendingLoad(quantity: map<Host, int>, order: seq<Host>) {
    forall i, j :: 0 <= i <= j < |order| ==> QuantityOf(quantity, order[i]) <= QuantityOf(quantity, order[j])
  }

  lemma AscendingLoadAppend(quantity: map<Host, int>, order: seq<Host>, h: Host)
    requires AscendingLoad(quantity, order)
    requires forall i :: 0 <= i < |order| ==> QuantityOf(quantity, order[i]) <= QuantityOf(quantity, h)
    ensures AscendingLoad(quantity, order + [h])
  {}

  lemma {:induction false} SomeHostIsLeast(quantity: map<Host, int>, hosts: set<Host>)
    requires hosts != {}
    ensures exists h :: h in hosts && IsLeastLoaded(quantity, h, hosts)
    decreases |hosts|
  {
    var h :| h in hosts;
    var rest := hosts - {h};
    if rest == {} {
      assert hosts == {h};
      assert IsLeastLoaded(quantity, h, hosts);
    } else {
      SomeHostIsLeast(quantity, rest);
      var m :| m in rest && IsLeastLoaded(quantity, m, rest);
      var least := if QuantityOf(quantity, h) <= QuantityOf(quantity, m) then h else m;
      assert IsLeastLoaded(quantity, least, hosts);
    }
  }

  /** The hosts by load, the most loaded last; hosts of equal load end up in any order. */
  method SortByLoad(hosts: seq<Host>, quantity: map<Host, int>) returns (order: seq<Host>)
    requires Distinct(hosts)
    ensures Listing(order, Elements(hosts)) && |order| == |hosts|
    ensures AscendingLoad(quantity, order)
  {
    var all := set h | h in hosts;
    var rest := all;
    order := [];
    while rest != {}
      invariant rest <= all && Walk(order, all - rest)
      invariant forall i :: 0 <= i < |order| ==> IsLeastLoaded(quantity, order[i], rest)
      invariant AscendingLoad(quantity, order)
    {
      SomeHostIsLeast(quantity, rest);
      var h :| h in rest && IsLeastLoaded(quantity, h, rest);
      WalkAppend(order, all - rest, h);
      AscendingLoadAppend(quantity, order, h);
      order := order + [h];
      rest := rest - {h};
      assert all - rest == all - (rest + {h}) + {h};
    }
    WalkIsListing(order, all);
    DistinctLength(order);
    DistinctLength(hosts);
  }

  /** Which of the nodes in the store are not alive. */
  method MarkDeadNodes(alive: seq<Host>, nodes: seq<Host>) returns (deadNodes: seq<Host>)
    ensures Firsts(deadNodes, |deadNodes|) == Firsts(nodes, |nodes|) - set h | h in alive
  {
    deadNodes := [];
    for i := 0 to |nodes|
      invariant Firsts(deadNodes, |deadNodes|) == Firsts(nodes, i) - set h | h in alive
    {
      var found := false;
      for j := 0 to |alive|
        invariant found <==> nodes[i] in alive[..j]
      {
        if alive[j] == nodes[i] {
          found := true;
        }
      }
      assert alive[..|alive|] == alive;
      if !found {
        FirstsPrefix(deadNodes, deadNodes + [nodes[i]], |deadNodes|);
        deadNodes := deadNodes + [nodes[i]];
      }
    }
  }

  /** The elements a loop takes that checks only after each of them whether it has enough. */
  method FirstFew<T>(list: seq<T>, toAdd: int) returns (chosen: seq<T>)
    ensures |chosen| == if |list| == 0 then 0 else if toAdd < 1 then 1 else Balance.Min(toAdd, |list|)
    ensures chosen == list[..|chosen|]
  {
    chosen := [];
    for i := 0 to |list|
      invariant chosen == list[..i] && (i > 0 ==> i < toAdd)
    {
      chosen := chosen + [list[i]];
      if toAdd - (i + 1) <= 0 {
        return;
      }
    }
  }

  /** How many configs each host keeps when the hosts claim in turn. */
  ghost function KeptCounts(a: Alloc, hosts: seq<Host>, configs: set<Config>): seq<int> {
    seq(|hosts|, j requires 0 <= j < |hosts| => |Held(a, hosts[j]) * Unclaimed(a, hosts, configs, j)|)
  }

  /** The balancer counted what the first k hosts keep; the others still count nothing. */
  ghost predicate Counted(kept: seq<int>, hosts: seq<Host>, quantity: map<Host, int>, k: nat)
    requires k <= |hosts| == |kept|
  {
    forall j :: 0 <= j < |hosts| ==> QuantityOf(quantity, hosts[j]) == if j < k then kept[j] else 0
  }

  /** What host k finds when its turn to claim comes, and what its turn leaves. */
  lemma ClaimTurn(a: Alloc, hosts: seq<Host>, configs: set<Config>, k: nat)
    requires Distinct(hosts) && k < |hosts|
    ensures var c, u, h := Claims(a, hosts, configs, k), Unclaimed(a, hosts, configs, k), hosts[k];
      && Held(c, h) == Held(a, h)
      && Minus(c, h, Held(c, h) - u) == Claims(a, hosts, configs, k + 1)
      && u - Held(c, h) == Unclaimed(a, hosts, configs, k + 1)
      && |Held(c, h) * u| == KeptCounts(a, hosts, configs)[k]
  {
    ClaimsOfOthers(a, hosts, configs, k, hosts[k]);
  }

  /** The first k hosts claimed: the store, the free set and the counts are as they left them. */
  ghost predicate Claimed(a: Alloc, hosts: seq<Host>, configs: set<Config>, k: nat,
                          store: Alloc, free: set<Config>, quantity: map<Host, int>)
    requires k <= |hosts|
  {
    && store == Claims(a, hosts, configs, k) && free == Unclaimed(a, hosts, configs, k)
    && Counted(KeptCounts(a, hosts, configs), hosts, quantity, k)
  }

  lemma NothingClaimed(a: Alloc, hosts: seq<Host>, configs: set<Config>)
    ensures Claimed(a, hosts, configs, 0, a, configs, map[])
  {}

  lemma ClaimedAll(a: Alloc, hosts: seq<Host>, configs: set<Config>, store: Alloc, free: set<Config>,
                   quantity: map<Host, int>)
    requires Distinct(hosts) && Claimed(a, hosts, configs, |hosts|, store, free, quantity)
    ensures store == Claims(a, hosts, configs, |hosts|) && free == Unclaimed(a, hosts, configs, |hosts|)
    ensures forall j :: 0 <= j < |hosts| ==> QuantityOf(quantity, hosts[j]) == |Held(store, hosts[j])|
  {
    forall j | 0 <= j < |hosts| ensures QuantityOf(quantity, hosts[j]) == |Held(store, hosts[j])| {
      ClaimsOfHost(a, hosts, configs, |hosts|, j);
    }
  }

  lemma CountedOneMore(kept: seq<int>, hosts: seq<Host>, quantity: map<Host, int>, k: nat)
    requires k < |hosts| == |kept| && Distinct(hosts) && Counted(kept, hosts, quantity, k)
    ensures Counted(kept, hosts, Raised(quantity, hosts[k], kept[k]), k + 1)
  {
    forall j | 0 <= j < |hosts|
      ensures QuantityOf(Raised(quantity, hosts[k], kept[k]), hosts[j]) == if j < k + 1 then kept[j] else 0
    {
      RaisedQuantity(quantity, hosts[k], kept[k], hosts[j]);
    }
  }

  // ----- walking through one host's configs in the second phase

  /** What is still unassigned once the first i configs were looked at. */
  function Leftover(configs: seq<Config>, free: set<Config>, i: nat): set<Config>
    requires i <= |configs|
  {
    if i == 0 then free else Leftover(configs, free, i - 1) - {configs[i - 1]}
  }

  /** The balancer's counts once the first i configs were looked at. */
  function CountedOn(quantity: map<Host, int>, h: Host, configs: seq<Config>, free: set<Config>, i: nat): map<Host, int>
    requires i <= |configs|
  {
    if i == 0 then quantity
    else
      var q := CountedOn(quantity, h, configs, free, i - 1);
      if configs[i - 1] in free then q[h := QuantityOf(q, h) + 1] else q
  }

  /** Those of the first i configs that were not. */
  function Dropped(configs: seq<Config>, free: set<Config>, i: nat): set<Config>
    requires i <= |configs|
  {
    if i == 0 then {}
    else if configs[i - 1] in free then Dropped(configs, free, i - 1)
    else Dropped(configs, free, i - 1) + {configs[i - 1]}
  }

  lemma {:induction false} ClaimsSplit(configs: seq<Config>, free: set<Config>, i: nat)
    requires i <= |configs| && NoRepeats(configs, i)
    ensures Leftover(configs, free, i) == free - Firsts(configs, i)
    ensures Dropped(configs, free, i) == Firsts(configs, i) - free
  {
    if i > 0 {
      ClaimsSplit(configs, free, i - 1);
    }
  }

  lemma KeptOneMore(configs: seq<Config>, free: set<Config>, i: nat)
    requires i < |configs| && NoRepeats(configs, i + 1)
    ensures |Firsts(configs, i + 1) * free| == |Firsts(configs, i) * free| + if configs[i] in free then 1 else 0
  {
    var before := Firsts(configs, i) * free;
    if configs[i] in free {
      assert Firsts(configs, i + 1) * free == before + {configs[i]};
    } else {
      assert Firsts(configs, i + 1) * free == before;
    }
  }

  lemma {:induction false} ClaimsCount(quantity: map<Host, int>, h: Host, configs: seq<Config>, free: set<Config>,
                                       i: nat)
    requires i <= |configs| && NoRepeats(configs, i)
    ensures CountedOn(quantity, h, configs, free, i) == Raised(quantity, h, |Firsts(configs, i) * free|)
  {
    if i > 0 {
      ClaimsCount(quantity, h, configs, free, i - 1);
      KeptOneMore(configs, free, i - 1);
      RaisedOneMore(quantity, h, |Firsts(configs, i - 1) * free|);
    }
  }

  lemma ClaimsStep(configs: seq<Config>, free: set<Config>, i: nat)
    requires i < |configs| && NoRepeats(configs, |configs|)
    ensures configs[i] in Leftover(configs, free, i) <==> configs[i] in free
    ensures configs[i] !in free ==> Leftover(configs, free, i + 1) == Leftover(configs, free, i)
  {
    WalkStep(configs, i, |configs|);
    WalkPrefix(configs, i, |configs|);
    ClaimsSplit(configs, free, i);
  }

  // ----- walking through the overloaded host's configs

  function Joined(configs: seq<Config>, free: set<Config>, i: nat): set<Config>
    requires i <= |configs|
  {
    if i == 0 then free else Joined(configs, free, i - 1) + {configs[i - 1]}
  }

  function CountedOff(quantity: map<Host, int>, h: Host, i: nat): map<Host, int> {
    if i == 0 then quantity
    else
      var q := CountedOff(quantity, h, i - 1);
      q[h := QuantityOf(q, h) - 1]
  }

  lemma {:induction false} JoinedIsUnion(list: seq<Config>, free: set<Config>, i: nat)
    requires i <= |list|
    ensures Joined(list, free, i) == free + Firsts(list, i)
  {
    if i > 0 {
      JoinedIsUnion(list, free, i - 1);
    }
  }

  lemma {:induction false} CountedOffIsLowered(quantity: map<Host, int>, h: Host, i: nat)
    ensures CountedOff(quantity, h, i) == Raised(quantity, h, 0 - i)
  {
    if i > 0 {
      CountedOffIsLowered(quantity, h, i - 1);
      LoweredOneMore(quantity, h, i - 1);
    }
  }

  // ----- the store and the counts, side by side

  /** The balancer's figures describe the store. */
  ghost predicate Tracks(s: Balance.Load, a: Alloc, order: seq<Host>, configs: set<Config>,
                         quantity: map<Host, int>, left: set<Config>)
  {
    && Distinct(order) && |s.held| == |s.quantity| == |order|
    && Orderly(a, Elements(order), configs)
    && left == FreeIn(a, configs) && |left| == s.free
    && (forall j :: 0 <= j < |order| ==> |Held(a, order[j])| == s.held[j])
    && (forall j :: 0 <= j < |order| ==> QuantityOf(quantity, order[j]) == s.quantity[j])
  }

  /** Host t gives up some of its configs. */
  lemma TracksLess(s: Balance.Load, a: Alloc, order: seq<Host>, configs: set<Config>,
                   quantity: map<Host, int>, left: set<Config>, t: nat, given: set<Config>)
    requires Tracks(s, a, order, configs, quantity, left) && t < |order| && given <= Held(a, order[t])
    ensures Tracks(Balance.Pay(s, t, |given|), Minus(a, order[t], given), order, configs,
                   Raised(quantity, order[t], 0 - |given|), left + given)
  {
    var h := order[t];
    FreeAfterMinus(a, Elements(order), configs, h, given);
    assert |left + given| == |left| + |given|;
    assert |Held(a, h) - given| == |Held(a, h)| - |given|;
    forall j | 0 <= j < |order|
      ensures |Held(Minus(a, h, given), order[j])| == Balance.Pay(s, t, |given|).held[j]
      ensures QuantityOf(Raised(quantity, h, 0 - |given|), order[j]) == Balance.Pay(s, t, |given|).quantity[j]
    {
      MinusHeld(a, h, given, order[j]);
      RaisedQuantity(quantity, h, 0 - |given|, order[j]);
      assert j != t ==> order[j] != h;
    }
  }

  lemma TracksAssign(s: Balance.Load, a: Alloc, order: seq<Host>, configs: set<Config>,
                     quantity: map<Host, int>, left: set<Config>, k: nat, given: set<Config>)
    requires Tracks(s, a, order, configs, quantity, left) && k < |order| && given <= left
    ensures Tracks(Balance.Receive(s, k, |given|), Plus(a, order[k], given), order, configs, quantity, left - given)
  {
    var h := order[k];
    var b := Plus(a, h, given);
    assert h in Elements(order);
    FreeAfterPlus(a, Elements(order), configs, h, given);
    assert |left - given| == |left| - |given|;
    forall j | 0 <= j < |order| ensures |Held(b, order[j])| == Balance.Receive(s, k, |given|).held[j] {
      PlusHeld(a, h, given, order[j]);
      if j == k {
        assert |Held(a, h) + given| == |Held(a, h)| + |given|;
      } else {
        assert order[j] != h;
      }
    }
  }

  /** After i turns and so many commands all is as the counts alone predict, from the store it started on. */
  ghost predicate InStep(mid: Alloc, order: seq<Host>, i: nat, configs: set<Config>, store: Alloc,
                         quantity: map<Host, int>, left: set<Config>, overloadedHost: Host, overloadedIndex: int,
                         issued: int)
    requires order != [] && i <= |order|
  {
    var s := BalancedUpTo(configs, mid, order, i);
    && Tracks(s, store, order, configs, quantity, left)
    && overloadedIndex == s.index && overloadedHost == order[s.target]
    && issued == s.commands >= 0 && (issued == 0 ==> store == mid)
  }

  lemma StartsInStep(a: Alloc, order: seq<Host>, configs: set<Config>, quantity: map<Host, int>, left: set<Config>)
    requires order != [] && Tracks(Balance.Start(CountsOf(a, order), |left|), a, order, configs, quantity, left)
    ensures InStep(a, order, 0, configs, a, quantity, left, order[|order| - 1], |order| - 1, 0)
  {}

  lemma EndsInStep(mid: Alloc, order: seq<Host>, configs: set<Config>, a: Alloc,
                   quantity: map<Host, int>, left: set<Config>, overloadedHost: Host, overloadedIndex: int, issued: int)
    requires order != []
    requires InStep(mid, order, |order|, configs, a, quantity, left, overloadedHost, overloadedIndex, issued)
    requires AscendingCounts(CountsOf(mid, order))
    ensures Orderly(a, Elements(order), configs) && Balanced(configs, mid, order, a, issued)
  {
    TracksCounts(BalancedUpTo(configs, mid, order, |order|), a, order, configs, quantity, left);
  }

  lemma TracksCounts(s: Balance.Load, a: Alloc, order: seq<Host>, configs: set<Config>,
                     quantity: map<Host, int>, left: set<Config>)
    requires Tracks(s, a, order, configs, quantity, left)
    ensures CountsOf(a, order) == s.held && |FreeIn(a, configs)| == s.free && Orderly(a, Elements(order), configs)
  {}

  lemma PayNothing(s: Balance.Load, t: nat)
    requires t < |s.held| == |s.quantity|
    ensures Balance.Pay(s, t, 0) == s
  {
    assert s.held[t := s.held[t] - 0] == s.held;
    assert s.quantity[t := s.quantity[t] - 0] == s.quantity;
  }

  /** A turn is a payment followed by a receipt, of the amounts the loop computes. */
  lemma TurnInSteps(p: Balance.Plan, s: Balance.Load, i: nat, wantage: int, overload: int)
    requires Balance.Shape(p, s) && i < p.n && wantage == Balance.Want(p, s, i)
    requires overload == s.quantity[Balance.Advance(p, s).0] - p.average
    ensures var (t, index) := Balance.Advance(p, s);
      var toRelease := Balance.Min(overload, wantage);
      var rel := if toRelease > 0 then toRelease else 0;
      var paid := Balance.Pay(s.(target := t, index := index), t, rel);
      var toAdd := Balance.Min(paid.free, Balance.Min(paid.free, wantage));
      var add := if paid.free == 0 then 0 else if toAdd < 1 then 1 else toAdd;
      rel == Balance.Released(p, s, i) && Balance.Turn(p, s, i) == Balance.Receive(paid, i, add)
  {}

  /** What host i wants, and by how much the overloaded host exceeds the average. */
  method Weigh(p: Balance.Plan, order: seq<Host>, i: nat, quantity: map<Host, int>, setLen: nat,
               overloadedHost: Host, overloadedIndex: int, ghost s: Balance.Load)
    returns (wantage: int, overload: int, nextHost: Host, nextIndex: int)
    requires Balance.Shape(p, s) && i < p.n == |order| && setLen == s.free
    requires forall j :: 0 <= j < |order| ==> QuantityOf(quantity, order[j]) == s.quantity[j]
    requires overloadedIndex == s.index && overloadedHost == order[s.target]
    ensures var (t, index) := Balance.Advance(p, s);
      nextHost == order[t] && nextIndex == index && overload == s.quantity[t] - p.average
    ensures wantage == Balance.Want(p, s, i)
  {
    nextHost, nextIndex := overloadedHost, overloadedIndex;
    wantage := p.average - QuantityOf(quantity, order[i]);
    if wantage == 0 && setLen > 0 {
      wantage := setLen / |order|;
    }
    // a host at or below the permissible number pays nothing: try the one before it
    if QuantityOf(quantity, nextHost) - p.permissible <= 0 {
      if nextIndex > 0 {
        nextHost := order[nextIndex];
        nextIndex := nextIndex - 1;
      }
    }
    overload := QuantityOf(quantity, nextHost) - p.average;
    if wantage == 0 && overload > 1 {
      wantage := 1;
    }
  }

  /** Host k holds nothing that an earlier host claimed, and nothing unlisted. */
  ghost predicate SharesNothing(a: Alloc, hosts: seq<Host>, configs: set<Config>, k: nat)
    requires k < |hosts|
  {
    Held(a, hosts[k]) <= Unclaimed(a, hosts, configs, k)
  }

  ghost predicate NothingShared(a: Alloc, hosts: seq<Host>, configs: set<Config>) {
    forall k :: 0 <= k < |hosts| ==> SharesNothing(a, hosts, configs, k)
  }

  lemma OrderlySharesNothing(a: Alloc, hosts: seq<Host>, configs: set<Config>)
    requires Distinct(hosts) && Orderly(a, Elements(hosts), configs)
    ensures NothingShared(Emptied(a, a.Keys - set h | h in hosts), hosts, configs)
  {
    var e := Emptied(a, a.Keys - set h | h in hosts);
    forall k | 0 <= k < |hosts| ensures SharesNothing(e, hosts, configs, k) {
      EmptiedHeld(a, hosts, hosts[k]);
      forall c | c in Held(e, hosts[k]) ensures c in Unclaimed(e, hosts, configs, k) {
        UnclaimedMembers(e, hosts, configs, k, c);
        forall m | 0 <= m < k ensures c !in Held(e, hosts[m]) { EmptiedHeld(a, hosts, hosts[m]); }
      }
    }
  }

  /** In an orderly store dead nodes hold nothing, and every host finds its configs unclaimed. */
  lemma NothingStale(a: Alloc, hosts: seq<Host>, configs: set<Config>, deadNodes: seq<Host>)
    requires Distinct(hosts) && Firsts(deadNodes, |deadNodes|) == a.Keys - set h | h in hosts
    ensures Orderly(a, Elements(hosts), configs) ==>
      forall i :: 0 <= i < |deadNodes| ==> Held(a, deadNodes[i]) == {}
    ensures Orderly(a, Elements(hosts), configs) ==>
      NothingShared(Emptied(a, a.Keys - set h | h in hosts), hosts, configs)
  {
    if Orderly(a, Elements(hosts), configs) {
      FirstsMembers(deadNodes, |deadNodes|);
      forall i | 0 <= i < |deadNodes| ensures Held(a, deadNodes[i]) == {} {
        assert deadNodes[i] in deadNodes[..|deadNodes|];
        assert deadNodes[i] !in Elements(hosts);
      }
      OrderlySharesNothing(a, hosts, configs);
    }
  }

  /** Sorting by the balancer's counts sorts by what the hosts hold, and the figures describe the store. */
  lemma BalancerStarts(a: Alloc, hosts: seq<Host>, order: seq<Host>, quantity: map<Host, int>, configs: set<Config>)
    requires hosts != [] && Distinct(hosts) && |order| == |hosts|
    requires Listing(order, Elements(hosts)) && AscendingLoad(quantity, order)
    requires Orderly(a, Elements(hosts), configs)
    requires forall j :: 0 <= j < |hosts| ==> QuantityOf(quantity, hosts[j]) == |Held(a, hosts[j])|
    ensures AscendingCounts(CountsOf(a, order))
    ensures Tracks(Balance.Start(CountsOf(a, order), |FreeIn(a, configs)|),
                   a, order, configs, quantity, FreeIn(a, configs))
  {
    forall j | 0 <= j < |order| ensures QuantityOf(quantity, order[j]) == |Held(a, order[j])| {
      assert order[j] in Elements(order);
      var m :| 0 <= m < |hosts| && hosts[m] == order[j];
    }
  }

  lemma PassCompleted(configs: set<Config>, hosts: seq<Host>, before: Alloc, commands: int, after: Alloc,
                      order: seq<Host>, cleaning: int)
    requires order != [] && Listing(order, Elements(hosts)) && Distinct(hosts)
    requires Orderly(before, Elements(hosts), configs) ==> cleaning == 0
    requires Orderly(after, Elements(hosts), configs)
    requires Balanced(configs, CleanUp(before, hosts, configs), order, after, commands - cleaning)
    ensures CompletedPass(configs, hosts, before, commands, after)
  {
    assert PassBy(configs, hosts, before, commands, after, order, cleaning);
  }

  // ----- what a pass may log

  ghost predicate OnlyReleases(before: seq<RaftLog>, after: seq<RaftLog>) {
    before <= after && forall i {:trigger after[i]} :: |before| <= i < |after| ==> IsRelease(after[i])
  }

  /** With so many commands the host lost as many configs, and no other host lost or gained any. */
  ghost predicate LostOnly(before: Alloc, name: Host, after: Alloc, commands: int) {
    var gone := Held(before, name) - Held(after, name);
    after == Minus(before, name, gone) && commands == |gone|
  }

  lemma LosesOnly(a: Alloc, name: Host, given: set<Config>)
    requires given <= Held(a, name)
    ensures LostOnly(a, name, Minus(a, name, given), |given|)
  {
    assert Held(a, name) - Held(Minus(a, name, given), name) == given;
  }

  /** From entry `mark` on the log holds only what the rule allows. */
  ghost predicate Follows(log: seq<RaftLog>, mark: nat, rule: RaftLog -> bool) {
    mark <= |log| && forall i :: mark <= i < |log| ==> rule(log[i])
  }

  ghost predicate ReleasesAllowed(rule: RaftLog -> bool) {
    forall e :: IsRelease(e) ==> rule(e)
  }

  ghost predicate Allowed(rule: RaftLog -> bool, hosts: set<Host>, configs: set<Config>) {
    forall e :: Permitted(e, hosts, configs) ==> rule(e)
  }

  /** A release, or the assignment of a listed config to a live host. */
  predicate Permitted(e: RaftLog, hosts: set<Host>, configs: set<Config>) {
    IsRelease(e) || (IsAssign(e) && e.cmd.host in hosts && e.cmd.config in configs)
  }

  ghost function PermittedRule(hosts: set<Host>, configs: set<Config>): RaftLog -> bool {
    e => Permitted(e, hosts, configs)
  }

  lemma PermittedRules(hosts: set<Host>, configs: set<Config>)
    ensures Allowed(PermittedRule(hosts, configs), hosts, configs)
  {}

  lemma PermittedFollows(before: seq<RaftLog>, after: seq<RaftLog>, hosts: set<Host>, configs: set<Config>)
    requires before <= after && Follows(after, |before|, PermittedRule(hosts, configs))
    ensures OnlyPermitted(before, after, hosts, configs)
  {
    forall i | |before| <= i < |after| ensures Permitted(after[i], hosts, configs) {
      assert PermittedRule(hosts, configs)(after[i]);
    }
  }

  ghost predicate OnlyPermitted(before: seq<RaftLog>, after: seq<RaftLog>, hosts: set<Host>, configs: set<Config>) {
    before <= after && forall i {:trigger after[i]} :: |before| <= i < |after| ==> Permitted(after[i], hosts, configs)
  }

  /**
   What a pass, completed or cut short, appends to the log: releases up to entry `cleaned`, and from
   there on, on an orderly store, releases and assignments of listed configs to live hosts.
   */
  ghost predicate Phases(origin: Alloc, before: seq<RaftLog>, log: seq<RaftLog>, cleaned: nat, hosts: set<Host>,
                         configs: set<Config>) {
    && |before| <= cleaned <= |log|
    && OnlyReleases(before, log[..cleaned])
    && OnlyPermitted(log[..cleaned], log, hosts, configs)
    && (cleaned < |log| ==> Orderly(Replay(origin, log, cleaned), hosts, configs))
  }

  lemma PhasesHold(origin: Alloc, before: seq<RaftLog>, clean: seq<RaftLog>, log: seq<RaftLog>, hosts: set<Host>,
                   configs: set<Config>)
    requires OnlyReleases(before, clean) && OnlyPermitted(clean, log, hosts, configs)
    requires |clean| < |log| ==> Orderly(Replay(origin, clean, |clean|), hosts, configs)
    ensures Phases(origin, before, log, |clean|, hosts, configs)
  {
    assert log[..|clean|] == clean;
    ReplayPrefix(origin, clean, log, |clean|);
  }

  lemma PermittedStep(a: Alloc, e: RaftLog, hosts: set<Host>, configs: set<Config>)
    requires Orderly(a, hosts, configs) && Permitted(e, hosts, configs) && SafeStep(a, e)
    ensures Orderly(Step(a, e), hosts, configs)
  {
    var h, c, b := e.cmd.host, e.cmd.config, Step(a, e);
    forall g: Host
      ensures Held(b, g) == if g != h then Held(a, g) else if IsAssign(e) then Held(a, g) + {c} else Held(a, g) - {c}
    {}
  }

  lemma {:induction false} OrderlyOnward(a: Alloc, log: seq<RaftLog>, hosts: set<Host>, configs: set<Config>, j: nat,
                                         k: nat)
    requires j <= k <= |log| && SafeFrom(a, log, k) && Orderly(Replay(a, log, j), hosts, configs)
    requires forall i :: j <= i < k ==> Permitted(log[i], hosts, configs)
    ensures Orderly(Replay(a, log, k), hosts, configs)
  {
    if j < k {
      OrderlyOnward(a, log, hosts, configs, j, k - 1);
      PermittedStep(Replay(a, log, k - 1), log[k - 1], hosts, configs);
    }
  }

  function Shared(a: Alloc, g: Host, h: Host): set<Config> {
    Held(a, g) * Held(a, h)
  }

  /** Hosts share no config now that they did not share before. */
  ghost predicate NothingNewShared(before: Alloc, now: Alloc) {
    forall g: Host, h: Host :: g != h ==> Shared(now, g, h) <= Shared(before, g, h)
  }

  lemma SafeLogSharesNothingNew(a: Alloc, log: seq<RaftLog>, j: nat, k: nat)
    requires j <= k <= |log| && SafeFrom(a, log, k)
    ensures NothingNewShared(Replay(a, log, j), Replay(a, log, k))
  {
    var before, now := Replay(a, log, j), Replay(a, log, k);
    forall g: Host, h: Host | g != h ensures Shared(now, g, h) <= Shared(before, g, h) {
      forall c | c in Shared(now, g, h) ensures c in Shared(before, g, h) {
        SafeLogNeverShares(a, log, j, k, g, h, c);
      }
    }
  }

  /** Held and free configs partition the listed ones. */
  ghost predicate Partitioned(a: Alloc, order: seq<Host>, configs: set<Config>) {
    Orderly(a, Elements(order), configs) && Sum(CountsOf(a, order)) + |FreeIn(a, configs)| == |configs|
  }

  /**
   Prefix safety: after every single command of a pass no two hosts share a config they did not share
   before it, and from the balancer's first command on only live hosts hold configs, only listed ones
   and none twice, so that held and free configs partition the listed ones.
   */
  lemma PrefixSafety(origin: Alloc, before: seq<RaftLog>, log: seq<RaftLog>, cleaned: nat, order: seq<Host>,
                     configs: set<Config>, k: nat)
    requires Phases(origin, before, log, cleaned, Elements(order), configs) && SafeFrom(origin, log, |log|)
    requires Distinct(order) && |before| <= k <= |log|
    ensures NothingNewShared(Replay(origin, log, |before|), Replay(origin, log, k))
    ensures cleaned < |log| && cleaned <= k ==> Partitioned(Replay(origin, log, k), order, configs)
  {
    SafeEarlier(origin, log, k, |log|);
    SafeLogSharesNothingNew(origin, log, |before|, k);
    if cleaned < |log| && cleaned <= k {
      OrderlyOnward(origin, log, Elements(order), configs, cleaned, k);
      CountsAddUp(Replay(origin, log, k), order, configs);
    }
  }

  /** How many of the first n commands failed. */
  function Refused(answers: nat -> bool, n: nat): nat {
    if n == 0 then 0 else Refused(answers, n - 1) + if answers(n - 1) then 0 else 1
  }

  lemma {:induction false} NothingRefused(answers: nat -> bool, n: nat)
    requires forall i {:trigger answers(i)} :: answers(i)
    ensures Refused(answers, n) == 0
  {
    if n > 0 {
      NothingRefused(answers, n - 1);
    }
  }

  /**
   The leader.  Of its own replica the scheduler only sees which host holds what: `store` is the
   allocation of that replica, which follows every applied entry as `Replica.Apply` promises.
   */
  class Cluster {
    var store: Alloc
    /** What the store held when this log began. */
    ghost const origin: Alloc
    /** The entries raft committed, for every replica to follow. */
    var log: seq<RaftLog>
    /** What is logged at present, and since which entry. */
    ghost var rule: RaftLog -> bool
    ghost var mark: nat
    /** How raft answers each command it is asked to commit: whether it was committed and applied. */
    const answers: nat -> bool
    var asked: nat
    /** How many commands failed so far. */
    ghost var failures: nat

    /**
     The store is what the log says, the log never assigned a config somebody held, since `mark` it
     holds only what the rule allows, and what is not in it failed.  It is said of k so that the log is
     unfolded only in proofs that speak of it.
     */
    ghost predicate Valid()
      reads this
    {
      forall k {:trigger Replay(origin, log, k)} :: k == |log| ==>
        && store == Replay(origin, log, k) && SafeFrom(origin, log, k)
        && Follows(log, mark, rule)
        && failures == Refused(answers, asked) && |log| + failures == asked
    }

    constructor (store: Alloc, answers: nat -> bool)
      ensures Valid() && this.store == store && origin == store && log == [] && this.answers == answers
      ensures asked == 0 && failures == 0
    {
      this.store := store;
      this.origin := store;
      this.log := [];
      this.rule := e => true;
      this.mark := 0;
      this.answers := answers;
      this.asked := 0;
      this.failures := 0;
      new;
      assert Replay(origin, log, 0) == store && SafeFrom(origin, log, 0) && Follows(log, mark, rule);
    }

    ghost function Rules(): (RaftLog -> bool, nat)
      reads this
    {
      (rule, mark)
    }

    lemma RuleFollowed()
      requires Valid()
      ensures store == Replay(origin, log, |log|)
      ensures Follows(log, mark, rule)
    {
      assert store == Replay(origin, log, |log|);
    }

    /** While raft never refuses, nothing fails. */
    lemma CountsRefusals()
      requires Valid()
      ensures failures == Refused(answers, asked) && |log| + failures == asked
      ensures (forall i {:trigger answers(i)} :: answers(i)) ==> failures == 0
    {
      assert store == Replay(origin, log, |log|);
      if forall i {:trigger answers(i)} :: answers(i) {
        NothingRefused(answers, asked);
      }
    }

    /** From here on only what `rule` allows is logged. */
    ghost method Restrict(rule: RaftLog -> bool)
      requires Valid()
      modifies this`rule, this`mark
      ensures Valid() && this.rule == rule && mark == |log|
    {
      assert store == Replay(origin, log, |log|);
      this.rule := rule;
      this.mark := |log|;
    }

    /** The configs of a host, in any order. */
    method List(host: Host) returns (configs: seq<Config>)
      ensures Walk(configs, Held(store, host))
    {
      configs := Listed(Held(store, host));
    }

    /** The hosts present in the store, in any order; their loads are only logged. */
    method DistributionStatistic() returns (hosts: seq<Host>)
      ensures Walk(hosts, store.Keys)
    {
      hosts := Listed(store.Keys);
    }

    /** Commits one command, or fails.  Once it succeeded, our own replica has applied it. */
    method RaftApply(cmd: RaftLog) returns (ok: bool)
      requires Valid() && SafeStep(store, cmd) && rule(cmd)
      modifies this
      ensures Valid() && Rules() == old(Rules())
      ensures ok == answers(old(asked)) && asked == old(asked) + 1
      ensures failures == old(failures) + if ok then 0 else 1
      ensures log == if ok then old(log) + [cmd] else old(log)
      ensures store == if ok then Step(old(store), cmd) else old(store)
    {
      assert store == Replay(origin, log, |log|);
      ok := answers(asked);
      asked := asked + 1;
      if !ok {
        failures := failures + 1;
        return;
      }
      SafeAppend(origin, log, cmd);
      store := Step(store, cmd);
      log := log + [cmd];
    }

    /** Releases the configs of one host one by one, until a command fails. */
    method ReleaseAll(host: Host, configs: seq<Config>, ghost all: set<Config>)
      returns (ok: bool, ghost given: set<Config>)
      requires Valid() && ReleasesAllowed(rule) && Walk(configs, all) && all <= Held(store, host)
      modifies this
      ensures failures == old(failures) + if ok then 0 else 1
      ensures Valid() && old(log) <= log && Rules() == old(Rules())
      ensures given <= all && (ok ==> given == all)
      ensures store == Minus(old(store), host, given) && |log| == |old(log)| + |given|
    {
      given := {};
      ok := true;
      MinusOneMore(store, host, {}, ConfigName(""));
      for i := 0 to |configs|
        invariant Valid() && old(log) <= log && Rules() == old(Rules()) && given == Firsts(configs, i) && given <= all
        invariant failures == old(failures)
        invariant store == Minus(old(store), host, given) && |log| == |old(log)| + i
      {
        WalkStep(configs, i, |configs|);
        MinusOneMore(old(store), host, given, configs[i]);
        ok := RaftApply(ReleaseCmd(host, configs[i]));
        if !ok {
          WalkPart(configs, all, i);
          return;
        }
        given := given + {configs[i]};
      }
      WalkSize(configs, |configs|);
    }

    /** A host gives up everything it held, unless a command fails. */
    method GiveUp(name: Host) returns (ok: bool)
      requires Valid() && ReleasesAllowed(rule)
      modifies this
      ensures failures == old(failures) + if ok then 0 else 1
      ensures Valid() && old(log) <= log && Rules() == old(Rules())
      ensures ok ==> store == Minus(old(store), name, Held(old(store), name))
      ensures ok && Held(old(store), name) == {} ==> |log| == |old(log)|
      ensures LostOnly(old(store), name, store, |log| - |old(log)|)
    {
      var configs := List(name);
      ghost var given;
      ok, given := ReleaseAll(name, configs, Held(store, name));
      LosesOnly(old(store), name, given);
    }

    /** A peer that left gives up everything it held, one config a command, up to a command that fails. */
    method RemoveRaftPeer(name: Host) returns (ok: bool)
      requires Valid()
      modifies this
      ensures failures == old(failures) + if ok then 0 else 1
      ensures Valid() && OnlyReleases(old(log), log)
      ensures ok ==> store == Minus(old(store), name, Held(old(store), name))
      ensures LostOnly(old(store), name, store, |log| - |old(log)|)
    {
      Restrict(e => IsRelease(e));
      ok := GiveUp(name);
      assert store == Replay(origin, log, |log|);
    }

    method ReleaseNextDead(deadNodes: seq<Host>, i: nat, ghost before: Alloc) returns (ok: bool)
      requires Valid() && ReleasesAllowed(rule) && i < |deadNodes|
      requires store == Emptied(before, Firsts(deadNodes, i))
      modifies this
      ensures failures == old(failures) + if ok then 0 else 1
      ensures Valid() && old(log) <= log && Rules() == old(Rules())
      ensures ok ==> store == Emptied(before, Firsts(deadNodes, i + 1))
      ensures ok && AllIdle(before, deadNodes) ==> |log| == |old(log)|
    {
      EmptyOneMore(before, Firsts(deadNodes, i), deadNodes[i]);
      IdleStays(before, deadNodes, i, Firsts(deadNodes, i));
      ok := GiveUp(deadNodes[i]);
    }

    /** First phase of a pass: hosts that are not alive give up everything. */
    method ReleaseDead(deadNodes: seq<Host>) returns (ok: bool)
      requires Valid() && ReleasesAllowed(rule)
      modifies this
      ensures failures == old(failures) + if ok then 0 else 1
      ensures Valid() && old(log) <= log && Rules() == old(Rules())
      ensures ok ==> store == Emptied(old(store), Firsts(deadNodes, |deadNodes|))
      ensures ok && AllIdle(old(store), deadNodes) ==> |log| == |old(log)|
    {
      EmptyOneMore(store, {}, HostName(""));
      ghost var before := store;
      for i := 0 to |deadNodes|
        invariant Valid() && old(log) <= log && Rules() == old(Rules())
        invariant failures == old(failures)
        invariant store == Emptied(before, Firsts(deadNodes, i))
        invariant AllIdle(before, deadNodes) ==> |log| == |old(log)|
      {
        ok := ReleaseNextDead(deadNodes, i, before);
        if !ok {
          return;
        }
      }
      ok := true;
    }

    /**
     Second phase, one host: what it holds of the unassigned configs stays and is counted,
     anything else is released.
     */
    method ClaimHost(quantity: map<Host, int>, host: Host, free: set<Config>)
      returns (ok: bool, left: set<Config>, counted: map<Host, int>)
      requires Valid() && ReleasesAllowed(rule)
      modifies this
      ensures failures == old(failures) + if ok then 0 else 1
      ensures Valid() && old(log) <= log && Rules() == old(Rules())
      ensures ok ==> left == free - Held(old(store), host)
      ensures ok ==> store == Minus(old(store), host, Held(old(store), host) - free)
      ensures ok ==> counted == Raised(quantity, host, |Held(old(store), host) * free|)
      ensures ok && Held(old(store), host) <= free ==> |log| == |old(log)|
    {
      var configs := List(host);
      ok, left, counted := ClaimListed(quantity, host, configs, free);
      ClaimsSplit(configs, free, |configs|);
      ClaimsCount(quantity, host, configs, free, |configs|);
    }

    method ClaimListed(quantity: map<Host, int>, host: Host, configs: seq<Config>, free: set<Config>)
      returns (ok: bool, left: set<Config>, counted: map<Host, int>)
      requires Valid() && ReleasesAllowed(rule) && Walk(configs, Held(store, host))
      modifies this
      ensures failures == old(failures) + if ok then 0 else 1
      ensures Valid() && old(log) <= log && Rules() == old(Rules())
      ensures ok ==> left == Leftover(configs, free, |configs|)
      ensures ok ==> store == Minus(old(store), host, Dropped(configs, free, |configs|))
      ensures ok ==> counted == CountedOn(quantity, host, configs, free, |configs|)
      ensures ok && Dropped(configs, free, |configs|) == {} ==> |log| == |old(log)|
    {
      left, counted := free, quantity;
      ok := true;
      MinusOneMore(store, host, {}, ConfigName(""));
      for i := 0 to |configs|
        invariant Valid() && old(log) <= log && Rules() == old(Rules()) && left == Leftover(configs, free, i)
        invariant failures == old(failures)
        invariant store == Minus(old(store), host, Dropped(configs, free, i))
        invariant counted == CountedOn(quantity, host, configs, free, i)
        invariant Dropped(configs, free, i) == {} ==> |log| == |old(log)|
      {
        var cfg := configs[i];
        ClaimsStep(configs, free, i);
        if cfg in left {
          counted := counted[host := QuantityOf(counted, host) + 1];
          left := left - {cfg};
        } else {
          MinusOneMore(old(store), host, Dropped(configs, free, i), cfg);
          ok := RaftApply(ReleaseCmd(host, cfg));
          if !ok {
            return;
          }
        }
      }
    }

    /** Second phase: host k claims. */
    method ClaimNext(ghost before: Alloc, hosts: seq<Host>, ghost configs: set<Config>, k: nat, free: set<Config>,
                     quantity: map<Host, int>, ghost idle: bool)
      returns (ok: bool, left: set<Config>, counted: map<Host, int>)
      requires Valid() && ReleasesAllowed(rule) && Distinct(hosts) && k < |hosts|
      requires Claimed(before, hosts, configs, k, store, free, quantity)
      requires idle ==> NothingShared(before, hosts, configs)
      modifies this
      ensures failures == old(failures) + if ok then 0 else 1
      ensures Valid() && old(log) <= log && Rules() == old(Rules())
      ensures ok ==> Claimed(before, hosts, configs, k + 1, store, left, counted)
      ensures ok && idle ==> |log| == |old(log)|
    {
      assert idle ==> SharesNothing(before, hosts, configs, k);
      ClaimTurn(before, hosts, configs, k);
      CountedOneMore(KeptCounts(before, hosts, configs), hosts, quantity, k);
      ok, left, counted := ClaimHost(quantity, hosts[k], free);
    }

    /** Second phase: the hosts claim in turn. */
    method ClaimAll(hosts: seq<Host>, configs: set<Config>, ghost idle: bool)
      returns (ok: bool, free: set<Config>, quantity: map<Host, int>)
      requires Valid() && ReleasesAllowed(rule) && Distinct(hosts)
      requires idle ==> NothingShared(store, hosts, configs)
      modifies this
      ensures failures == old(failures) + if ok then 0 else 1
      ensures Valid() && old(log) <= log && Rules() == old(Rules())
      ensures ok ==> store == Claims(old(store), hosts, configs, |hosts|)
      ensures ok ==> free == Unclaimed(old(store), hosts, configs, |hosts|)
      ensures ok ==> forall j :: 0 <= j < |hosts| ==> QuantityOf(quantity, hosts[j]) == |Held(store, hosts[j])|
      ensures ok && idle ==> |log| == |old(log)|
    {
      ghost var before := store;
      free, quantity, ok := configs, map[], true;
      NothingClaimed(store, hosts, configs);
      for k := 0 to |hosts|
        invariant Valid() && old(log) <= log && Rules() == old(Rules())
        invariant failures == old(failures)
        invariant Claimed(before, hosts, configs, k, store, free, quantity)
        invariant idle ==> |log| == |old(log)|
      {
        ok, free, quantity := ClaimNext(before, hosts, configs, k, free, quantity, idle);
        if !ok {
          return;
        }
      }
      ClaimedAll(before, hosts, configs, store, free, quantity);
    }

    /** Takes `toRelease` configs, whichever come first, off a host. */
    method ReleaseSome(host: Host, toRelease: nat, free: set<Config>, quantity: map<Host, int>)
      returns (ok: bool, left: set<Config>, counted: map<Host, int>, ghost given: set<Config>)
      requires Valid() && ReleasesAllowed(rule)
      modifies this
      ensures failures == old(failures) + if ok then 0 else 1
      ensures Valid() && old(log) <= log && Rules() == old(Rules()) && given <= Held(old(store), host)
      ensures store == Minus(old(store), host, given) && |log| == |old(log)| + |given|
      ensures left == free + given && counted == Raised(quantity, host, 0 - |given|)
      ensures ok ==> |given| == Balance.Min(toRelease, |Held(old(store), host)|)
    {
      var list := List(host);
      ghost var done;
      ok, left, counted, done := ReleaseListed(host, list, toRelease, free, quantity);
      given := Firsts(list, done);
      WalkPart(list, Held(old(store), host), done);
      WalkSize(list, |list|);
      JoinedIsUnion(list, free, done);
      CountedOffIsLowered(quantity, host, done);
    }

    method ReleaseListed(host: Host, list: seq<Config>, toRelease: nat, free: set<Config>, quantity: map<Host, int>)
      returns (ok: bool, left: set<Config>, counted: map<Host, int>, ghost done: nat)
      requires Valid() && ReleasesAllowed(rule) && Walk(list, Held(store, host))
      modifies this
      ensures failures == old(failures) + if ok then 0 else 1
      ensures Valid() && old(log) <= log && Rules() == old(Rules()) && done <= |list|
      ensures store == Minus(old(store), host, Firsts(list, done)) && |log| == |old(log)| + done
      ensures left == Joined(list, free, done) && counted == CountedOff(quantity, host, done)
      ensures ok ==> done == Balance.Min(toRelease, |list|)
    {
      left, counted, ok := free, quantity, true;
      var remaining: int := toRelease;
      done := 0;
      MinusOneMore(store, host, {}, ConfigName(""));
      for i := 0 to |list|
        invariant done == i && remaining == toRelease - i >= 0 && ok && Valid() && old(log) <= log
        invariant failures == old(failures)
        invariant Rules() == old(Rules())
        invariant left == Joined(list, free, i) && counted == CountedOff(quantity, host, i)
        invariant store == Minus(old(store), host, Firsts(list, i)) && |log| == |old(log)| + i
      {
        remaining := remaining - 1;
        if remaining < 0 {
          break;
        }
        MinusOneMore(old(store), host, Firsts(list, i), list[i]);
        ok := RaftApply(ReleaseCmd(host, list[i]));
        if !ok {
          break;
        }
        left := left + {list[i]};
        counted := counted[host := QuantityOf(counted, host) - 1];
        done := done + 1;
      }
    }

    /** Picks the configs to assign: the first one is taken before the number is looked at. */
    method Choose(free: set<Config>, toAdd: int) returns (chosen: seq<Config>)
      ensures NoRepeats(chosen, |chosen|) && Firsts(chosen, |chosen|) <= free
      ensures |chosen| == if free == {} then 0 else if toAdd < 1 then 1 else Balance.Min(toAdd, |free|)
    {
      var list := Listed(free);
      chosen := FirstFew(list, toAdd);
      WalkSize(list, |list|);
      WalkFirst(list, free, |chosen|);
    }

    /** Assigns the chosen configs to a host one by one, until a command fails. */
    method AssignAll(host: Host, chosen: seq<Config>, free: set<Config>, ghost hosts: set<Host>,
                     ghost configs: set<Config>)
      returns (ok: bool, left: set<Config>, ghost given: set<Config>)
      requires Valid() && Allowed(rule, hosts, configs) && NoRepeats(chosen, |chosen|)
      requires Firsts(chosen, |chosen|) <= FreeIn(store, configs) && host in hosts
      modifies this
      ensures failures == old(failures) + if ok then 0 else 1
      ensures Valid() && old(log) <= log && Rules() == old(Rules()) && given <= Firsts(chosen, |chosen|)
      ensures store == Plus(old(store), host, given) && left == free - given
      ensures ok ==> |given| == |chosen| && |log| == |old(log)| + |chosen|
    {
      ghost var done;
      ok, left, done := AssignListed(host, chosen, free, hosts, configs);
      given := Firsts(chosen, done);
      WalkPart(chosen, Firsts(chosen, |chosen|), done);
      ClaimsSplit(chosen, free, done);
    }

    /** Each of the chosen configs is listed and still unheld once those before it were assigned. */
    method AssignListed(host: Host, chosen: seq<Config>, free: set<Config>, ghost hosts: set<Host>,
                        ghost configs: set<Config>)
      returns (ok: bool, left: set<Config>, ghost done: nat)
      requires Valid() && Allowed(rule, hosts, configs) && NoRepeats(chosen, |chosen|)
      requires Firsts(chosen, |chosen|) <= FreeIn(store, configs) && host in hosts
      modifies this
      ensures failures == old(failures) + if ok then 0 else 1
      ensures Valid() && old(log) <= log && Rules() == old(Rules()) && done <= |chosen|
      ensures store == Plus(old(store), host, Firsts(chosen, done)) && |log| == |old(log)| + done
      ensures left == Leftover(chosen, free, done) && (ok ==> done == |chosen|)
    {
      left, ok, done := free, true, 0;
      for i := 0 to |chosen|
        invariant done == i && ok && Valid() && old(log) <= log && Rules() == old(Rules())
        invariant failures == old(failures) && left == Leftover(chosen, free, i)
        invariant store == Plus(old(store), host, Firsts(chosen, i)) && |log| == |old(log)| + i
      {
        WalkStep(chosen, i, |chosen|);
        PlusOneMore(old(store), host, Firsts(chosen, i), chosen[i]);
        StillUnheld(old(store), configs, host, Firsts(chosen, i), chosen[i]);
        ok := RaftApply(AssignCmd(host, chosen[i]));
        if !ok {
          break;
        }
        left := left - {chosen[i]};
        done := done + 1;
      }
    }

    /** One turn of the balancer's loop: host i takes from the overloaded host and from the free configs. */
    method ServeHost(p: Balance.Plan, order: seq<Host>, i: nat, quantity: map<Host, int>, configSet: set<Config>,
                     overloadedHost: Host, overloadedIndex: int, ghost s: Balance.Load, ghost configs: set<Config>)
      returns (ok: bool, left: set<Config>, counted: map<Host, int>, nextHost: Host, nextIndex: int)
      requires Valid() && Allowed(rule, Elements(order), configs) && Balance.Shape(p, s) && i < p.n == |order|
      requires Tracks(s, store, order, configs, quantity, configSet)
      requires overloadedIndex == s.index && overloadedHost == order[s.target]
      requires Balance.Released(p, s, i) <= s.held[Balance.Advance(p, s).0]
      modifies this
      ensures failures == old(failures) + if ok then 0 else 1
      ensures Valid() && old(log) <= log && Rules() == old(Rules()) && Orderly(store, Elements(order), configs)
      ensures ok ==> var r := Balance.Turn(p, s, i);
        && Tracks(r, store, order, configs, counted, left)
        && nextIndex == r.index && nextHost == order[r.target]
        && |log| == |old(log)| + r.commands - s.commands
        && r.commands >= s.commands && (r.commands == s.commands ==> store == old(store))
    {
      var wantage, overload;
      wantage, overload, nextHost, nextIndex :=
        Weigh(p, order, i, quantity, |configSet|, overloadedHost, overloadedIndex, s);
      ghost var t := Balance.Advance(p, s).0;
      ghost var current := s.(target := t, index := nextIndex);
      TurnInSteps(p, s, i, wantage, overload);

      // release assigned configs
      var toRelease := Balance.Min(overload, wantage);
      ghost var done: nat := 0;
      left, counted := configSet, quantity;
      PayNothing(current, t);
      if toRelease > 0 {
        ok, left, counted, done := ReleaseTracked(nextHost, toRelease, configSet, quantity, current, t, order, configs);
        if !ok {
          return;
        }
      }

      // assign free configs
      var toAdd := Balance.Min(|left|, wantage);
      ok, left := AssignTracked(i, toAdd, left, Balance.Pay(current, t, done), order, configs, counted);
    }

    /** Releases from the overloaded host, keeping the figures in step with the store. */
    method ReleaseTracked(host: Host, toRelease: nat, free: set<Config>, quantity: map<Host, int>,
                          ghost s: Balance.Load, ghost t: nat, ghost order: seq<Host>, ghost configs: set<Config>)
      returns (ok: bool, left: set<Config>, counted: map<Host, int>, ghost done: nat)
      requires Valid() && ReleasesAllowed(rule) && Tracks(s, store, order, configs, quantity, free)
      requires t < |order| && host == order[t] && toRelease <= s.held[t]
      modifies this
      ensures failures == old(failures) + if ok then 0 else 1
      ensures Valid() && old(log) <= log && Rules() == old(Rules())
      ensures Tracks(Balance.Pay(s, t, done), store, order, configs, counted, left)
      ensures |log| == |old(log)| + done && (ok ==> done == toRelease)
      ensures done == 0 ==> store == old(store)
    {
      MinusOneMore(store, host, {}, ConfigName(""));
      ghost var given;
      ok, left, counted, given := ReleaseSome(host, toRelease, free, quantity);
      done := |given|;
      TracksLess(s, old(store), order, configs, quantity, free, t, given);
    }

    /** Assigns to host i, keeping the figures in step with the store. */
    method AssignTracked(i: nat, toAdd: int, free: set<Config>, ghost s: Balance.Load,
                         order: seq<Host>, ghost configs: set<Config>, ghost quantity: map<Host, int>)
      returns (ok: bool, left: set<Config>)
      requires Valid() && Allowed(rule, Elements(order), configs) && i < |order|
      requires Tracks(s, store, order, configs, quantity, free)
      modifies this
      ensures failures == old(failures) + if ok then 0 else 1
      ensures Valid() && old(log) <= log && Rules() == old(Rules()) && Orderly(store, Elements(order), configs)
      ensures ok ==>
        var add := if s.free == 0 then 0 else if Balance.Min(s.free, toAdd) < 1 then 1 else Balance.Min(s.free, toAdd);
        && Tracks(Balance.Receive(s, i, add), store, order, configs, quantity, left)
        && |log| == |old(log)| + add && (add == 0 ==> store == old(store))
    {
      var configsToAssign := Choose(free, toAdd);
      ghost var given;
      assert order[i] in Elements(order);
      ok, left, given := AssignAll(order[i], configsToAssign, free, Elements(order), configs);
      TracksAssign(s, old(store), order, configs, quantity, free, i, given);
    }

    /** Third phase: every host takes its turn, the least loaded first. */
    method RunBalancer(p: Balance.Plan, order: seq<Host>, quantity: map<Host, int>, configSet: set<Config>,
                       ghost configs: set<Config>)
      returns (ok: bool)
      requires Valid() && Allowed(rule, Elements(order), configs) && order != []
      requires p == Balance.PlanFor(|order|, |configs|)
      requires Tracks(Balance.Start(CountsOf(store, order), |configSet|), store, order, configs, quantity, configSet)
      requires AscendingCounts(CountsOf(store, order))
      modifies this
      ensures failures == old(failures) + if ok then 0 else 1
      ensures Valid() && old(log) <= log && Rules() == old(Rules()) && Orderly(store, Elements(order), configs)
      ensures ok ==> Balanced(configs, old(store), order, store, |log| - |old(log)|)
    {
      var overloadedIndex := |order| - 1;
      var overloadedHost := order[overloadedIndex];
      StartsInStep(store, order, configs, quantity, configSet);
      ghost var left, counted, host, index;
      ok, left, counted, host, index :=
        TakeTurns(p, order, quantity, configSet, overloadedHost, overloadedIndex, store, configs);
      if ok {
        EndsInStep(old(store), order, configs, store, counted, left, host, index, |log| - |old(log)|);
      }
    }

    /** The turns of all hosts in order, until a command fails. */
    method TakeTurns(p: Balance.Plan, order: seq<Host>, quantity: map<Host, int>, configSet: set<Config>,
                     overloadedHost: Host, overloadedIndex: int, ghost mid: Alloc, ghost configs: set<Config>)
      returns (ok: bool, left: set<Config>, counted: map<Host, int>, host: Host, index: int)
      requires Valid() && Allowed(rule, Elements(order), configs) && order != []
      requires p == Balance.PlanFor(|order|, |configs|)
      requires Distinct(order) && Orderly(mid, Elements(order), configs) && AscendingCounts(CountsOf(mid, order))
      requires InStep(mid, order, 0, configs, store, quantity, configSet, overloadedHost, overloadedIndex, 0)
      modifies this
      ensures failures == old(failures) + if ok then 0 else 1
      ensures Valid() && old(log) <= log && Rules() == old(Rules()) && Orderly(store, Elements(order), configs)
      ensures ok ==> InStep(mid, order, |order|, configs, store, counted, left, host, index, |log| - |old(log)|)
    {
      left, counted, host, index, ok := configSet, quantity, overloadedHost, overloadedIndex, true;
      for i := 0 to |order|
        invariant ok && Valid() && old(log) <= log && Rules() == old(Rules())
        invariant failures == old(failures)
        invariant InStep(mid, order, i, configs, store, counted, left, host, index, |log| - |old(log)|)
      {
        ok, left, counted, host, index :=
          ServeNext(p, order, i, counted, left, host, index, mid, configs, |log| - |old(log)|);
        if !ok {
          return;
        }
      }
    }

    /** One more turn of the balancer that started on store `mid`. */
    method ServeNext(p: Balance.Plan, order: seq<Host>, i: nat, quantity: map<Host, int>, configSet: set<Config>,
                     overloadedHost: Host, overloadedIndex: int, ghost mid: Alloc, ghost configs: set<Config>,
                     ghost issued: int)
      returns (ok: bool, left: set<Config>, counted: map<Host, int>, nextHost: Host, nextIndex: int)
      requires Valid() && Allowed(rule, Elements(order), configs) && i < |order|
      requires p == Balance.PlanFor(|order|, |configs|)
      requires Distinct(order) && Orderly(mid, Elements(order), configs) && AscendingCounts(CountsOf(mid, order))
      requires InStep(mid, order, i, configs, store, quantity, configSet, overloadedHost, overloadedIndex, issued)
      modifies this
      ensures failures == old(failures) + if ok then 0 else 1
      ensures Valid() && old(log) <= log && Rules() == old(Rules()) && Orderly(store, Elements(order), configs)
      ensures ok ==>
        InStep(mid, order, i + 1, configs, store, counted, left, nextHost, nextIndex, issued + |log| - |old(log)|)
    {
      EnoughToRelease(configs, mid, order, i);
      ghost var s := BalancedUpTo(configs, mid, order, i);
      ok, left, counted, nextHost, nextIndex :=
        ServeHost(p, order, i, quantity, configSet, overloadedHost, overloadedIndex, s, configs);
    }

    /**
     One scheduler pass.  `configs` is None when the parsing configs cannot be listed.  A pass that
     returns ok either had no hosts to work with or ran through all three phases; one that fails
     still logged nothing but what those phases log.
     */
    method DistributeTasks(hosts: seq<Host>, configs: Option<seq<Config>>) returns (ok: bool, ghost cleaned: nat)
      requires Valid() && Distinct(hosts) && (configs.Some? ==> Distinct(configs.value))
      modifies this
      ensures Valid() && old(log) <= log
      ensures hosts == [] ==> ok && store == old(store) && log == old(log) && failures == old(failures)
      ensures hosts != [] && configs.None? ==>
        !ok && store == old(store) && log == old(log) && failures == old(failures)
      ensures hosts != [] && configs.Some? ==> failures == old(failures) + if ok then 0 else 1
      ensures hosts != [] && configs.Some? ==>
        Phases(origin, old(log), log, cleaned, Elements(hosts), Elements(configs.value))
      ensures ok && hosts != [] ==>
        CompletedPass(Elements(configs.value), hosts, old(store), |log| - |old(log)|, store)
    {
      cleaned := |log|;
      if |hosts| == 0 {
        return true, cleaned;
      }
      if configs.None? {
        return false, cleaned;
      }
      var configSet := set c | c in configs.value;
      DistinctLength(configs.value);
      ok, cleaned := CleanAndBalance(hosts, configSet, |configs.value|);
    }

    /** The three phases of a pass over at least one host. */
    method CleanAndBalance(hosts: seq<Host>, configSet: set<Config>, configsLen: nat)
      returns (ok: bool, ghost cleaned: nat)
      requires Valid() && Distinct(hosts) && hosts != [] && |configSet| == configsLen
      modifies this
      ensures failures == old(failures) + if ok then 0 else 1
      ensures Valid() && old(log) <= log
      ensures Phases(origin, old(log), log, cleaned, Elements(hosts), configSet)
      ensures ok ==> CompletedPass(configSet, hosts, old(store), |log| - |old(log)|, store)
    {
      ghost var clean;
      ok, clean := RunPhases(hosts, configSet, configsLen);
      cleaned := |clean|;
      PhasesHold(origin, old(log), clean, log, Elements(hosts), configSet);
    }

    /** `clean` is the log when the balancer started, or the whole log if it did not. */
    method RunPhases(hosts: seq<Host>, configSet: set<Config>, configsLen: nat)
      returns (ok: bool, ghost clean: seq<RaftLog>)
      requires Valid() && Distinct(hosts) && hosts != [] && |configSet| == configsLen
      modifies this
      ensures failures == old(failures) + if ok then 0 else 1
      ensures Valid() && OnlyReleases(old(log), clean) && OnlyPermitted(clean, log, Elements(hosts), configSet)
      ensures |clean| < |log| ==> Orderly(Replay(origin, clean, |clean|), Elements(hosts), configSet)
      ensures ok ==> CompletedPass(configSet, hosts, old(store), |log| - |old(log)|, store)
    {
      var free, quantity;
      ok, free, quantity := CleanPhase(hosts, configSet);
      clean := log;
      if !ok {
        return;
      }
      ok := BalancePhase(hosts, configSet, configsLen, free, quantity, old(store), |clean| - |old(log)|);
    }

    /** The first two phases, logging only releases. */
    method CleanPhase(hosts: seq<Host>, configSet: set<Config>)
      returns (ok: bool, free: set<Config>, quantity: map<Host, int>)
      requires Valid() && Distinct(hosts)
      modifies this
      ensures failures == old(failures) + if ok then 0 else 1
      ensures Valid() && OnlyReleases(old(log), log)
      ensures ok ==> store == CleanUp(old(store), hosts, configSet) && free == FreeIn(store, configSet)
      ensures ok ==> Orderly(store, Elements(hosts), configSet)
      ensures ok ==> Orderly(Replay(origin, log, |log|), Elements(hosts), configSet)
      ensures ok ==> forall j :: 0 <= j < |hosts| ==> QuantityOf(quantity, hosts[j]) == |Held(store, hosts[j])|
      ensures ok && Orderly(old(store), Elements(hosts), configSet) ==> |log| == |old(log)|
    {
      Restrict(e => IsRelease(e));
      ok, free, quantity := ReleaseStale(hosts, configSet);
      RuleFollowed();
    }

    /** The balancer, logging only what is permitted; it completes the pass that started on store `before`. */
    method BalancePhase(hosts: seq<Host>, configSet: set<Config>, configsLen: nat, free: set<Config>,
                        quantity: map<Host, int>, ghost before: Alloc, ghost cleaning: int)
      returns (ok: bool)
      requires Valid() && Distinct(hosts) && hosts != [] && |configSet| == configsLen
      requires store == CleanUp(before, hosts, configSet)
      requires Orderly(before, Elements(hosts), configSet) ==> cleaning == 0
      requires Orderly(store, Elements(hosts), configSet) && free == FreeIn(store, configSet)
      requires forall j :: 0 <= j < |hosts| ==> QuantityOf(quantity, hosts[j]) == |Held(store, hosts[j])|
      modifies this
      ensures failures == old(failures) + if ok then 0 else 1
      ensures Valid() && OnlyPermitted(old(log), log, Elements(hosts), configSet)
      ensures ok ==> CompletedPass(configSet, hosts, before, cleaning + |log| - |old(log)|, store)
    {
      PermittedRules(Elements(hosts), configSet);
      Restrict(PermittedRule(Elements(hosts), configSet));
      ok := FinishPass(hosts, configSet, configsLen, free, quantity, before, cleaning);
      RuleFollowed();
      PermittedFollows(old(log), log, Elements(hosts), configSet);
    }

    method FinishPass(hosts: seq<Host>, configSet: set<Config>, configsLen: nat, free: set<Config>,
                      quantity: map<Host, int>, ghost before: Alloc, ghost cleaning: int)
      returns (ok: bool)
      requires Valid() && Allowed(rule, Elements(hosts), configSet)
      requires Distinct(hosts) && hosts != [] && |configSet| == configsLen
      requires store == CleanUp(before, hosts, configSet)
      requires Orderly(before, Elements(hosts), configSet) ==> cleaning == 0
      requires Orderly(store, Elements(hosts), configSet) && free == FreeIn(store, configSet)
      requires forall j :: 0 <= j < |hosts| ==> QuantityOf(quantity, hosts[j]) == |Held(store, hosts[j])|
      modifies this
      ensures failures == old(failures) + if ok then 0 else 1
      ensures Valid() && old(log) <= log && Rules() == old(Rules())
      ensures ok ==> CompletedPass(configSet, hosts, before, cleaning + |log| - |old(log)|, store)
    {
      var order;
      ok, order := SortAndBalance(hosts, configSet, configsLen, free, quantity);
      if ok {
        PassCompleted(configSet, hosts, before, cleaning + |log| - |old(log)|, store, order, cleaning);
      }
    }

    /** The balancer on hosts sorted by load. */
    method SortAndBalance(hosts: seq<Host>, configSet: set<Config>, configsLen: nat, free: set<Config>,
                          quantity: map<Host, int>)
      returns (ok: bool, order: seq<Host>)
      requires Valid() && Allowed(rule, Elements(hosts), configSet) && Distinct(hosts) && hosts != []
      requires |configSet| == configsLen
      requires Orderly(store, Elements(hosts), configSet) && free == FreeIn(store, configSet)
      requires forall j :: 0 <= j < |hosts| ==> QuantityOf(quantity, hosts[j]) == |Held(store, hosts[j])|
      modifies this
      ensures failures == old(failures) + if ok then 0 else 1
      ensures Valid() && old(log) <= log && Rules() == old(Rules()) && Orderly(store, Elements(hosts), configSet)
      ensures order != [] && Listing(order, Elements(hosts))
      ensures ok ==> Balanced(configSet, old(store), order, store, |log| - |old(log)|)
    {
      order := SortByLoad(hosts, quantity);
      BalancerStarts(store, hosts, order, quantity, configSet);
      ok := RunBalancer(Balance.PlanFor(|hosts|, configsLen), order, quantity, free, configSet);
    }

    /** The first two phases: release what dead hosts hold, what is not listed, and what is claimed already. */
    method ReleaseStale(hosts: seq<Host>, configSet: set<Config>)
      returns (ok: bool, free: set<Config>, quantity: map<Host, int>)
      requires Valid() && ReleasesAllowed(rule) && Distinct(hosts)
      modifies this
      ensures failures == old(failures) + if ok then 0 else 1
      ensures Valid() && old(log) <= log && Rules() == old(Rules())
      ensures ok ==> store == CleanUp(old(store), hosts, configSet) && free == FreeIn(store, configSet)
      ensures ok ==> Orderly(store, Elements(hosts), configSet)
      ensures ok ==> forall j :: 0 <= j < |hosts| ==> QuantityOf(quantity, hosts[j]) == |Held(store, hosts[j])|
      ensures ok && Orderly(old(store), Elements(hosts), configSet) ==> |log| == |old(log)|
    {
      free, quantity := {}, map[];
      var stat := DistributionStatistic();
      var deadNodes := MarkDeadNodes(hosts, stat);
      NothingStale(store, hosts, configSet, deadNodes);
      ok := ReleaseDead(deadNodes);
      if !ok {
        return;
      }
      ok, free, quantity := ClaimAll(hosts, configSet, Orderly(old(store), Elements(hosts), configSet));
      CleanUpIsOrderly(old(store), hosts, configSet);
    }
  }
}
