/**
 The arithmetic of the config balancer, seen through counts alone.

 The balancer walks the hosts in ascending order of load.  Everything it decides
 depends on how many configs each host holds and how many are unassigned, so one
 pass is a function of the sorted counts.  Hosts are named by their position in
 the sorted list.  `held` is what the store holds, `quantity` what the balancer
 believes: it is lowered on release but not raised on assignment.
 */
module Balance {
  import opened Sums

  datatype Load = Load(held: seq<int>, quantity: seq<int>, free: int, index: int, target: int, commands: int)

  /** What all hosts share during one pass: n hosts, the floor and the ceiling of the mean. */
  datatype Plan = Plan(n: nat, average: nat, permissible: nat)

  function PlanFor(n: nat, configs: nat): Plan
    requires n > 0
  {
    Plan(n, configs / n, if configs % n > 0 then configs / n + 1 else configs / n)
  }

  /** The plan's figures stated without division: the average is the floor of the mean, permissible the ceiling. */
  ghost predicate Fits(p: Plan, total: int) {
    && p.n > 0
    && Times(p.n, p.average) <= total < Times(p.n, p.average) + p.n
    && p.permissible == (if total == Times(p.n, p.average) then p.average else p.average + 1)
  }

  lemma PlanFits(n: nat, configs: nat)
    requires n > 0
    ensures Fits(PlanFor(n, configs), configs)
    ensures Times(n, configs / n) == configs - configs % n
  {
    TimesIsProduct(n, configs / n);
  }

  /** No other plan fits. */
  lemma PlanIsUnique(p: Plan, n: nat, configs: nat)
    requires p.n == n && Fits(p, configs)
    ensures p == PlanFor(n, configs)
  {
    var q := PlanFor(n, configs);
    PlanFits(n, configs);
    if p.average < q.average {
      TimesAddsOne(n, p.average);
      TimesMonotone(n, p.average + 1, q.average);
    }
    if q.average < p.average {
      TimesAddsOne(n, q.average);
      TimesMonotone(n, q.average + 1, p.average);
    }
  }

  lemma SmallShare(a: int, n: int)
    requires 0 <= a < n
    ensures a / n == 0
  {}

  function Min(a: int, b: int): int { if a < b then a else b }

  /** The host whose configs may be released, once host `i` has looked for it. */
  function Advance(p: Plan, s: Load): (r: (int, int))
    requires 0 <= s.target < |s.quantity|
  {
    if s.quantity[s.target] - p.permissible <= 0 && s.index > 0
    then (s.index, s.index - 1)
    else (s.target, s.index)
  }

  /** How many configs host `i` wants, before the share of overloaded hosts is considered. */
  function FirstWant(p: Plan, s: Load, i: nat): int
    requires i < |s.quantity| && p.n > 0 && s.free >= 0
  {
    var want := p.average - s.quantity[i];
    if want == 0 && s.free > 0 then s.free / p.n else want
  }

  function Want(p: Plan, s: Load, i: nat): int
    requires i < |s.quantity| && p.n > 0 && s.free >= 0
    requires 0 <= s.target < |s.quantity| && s.index < |s.quantity|
  {
    var want := FirstWant(p, s, i);
    if want == 0 && s.quantity[Advance(p, s).0] - p.average > 1 then 1 else want
  }

  /** How many configs the overloaded host gives up in host `i`'s turn. */
  function Released(p: Plan, s: Load, i: nat): int
    requires i < |s.quantity| && p.n > 0 && s.free >= 0
    requires 0 <= s.target < |s.quantity| && s.index < |s.quantity|
  {
    var r := Min(s.quantity[Advance(p, s).0] - p.average, Want(p, s, i));
    if r > 0 then r else 0
  }

  /** How many configs host `i` receives: at least one whenever any is unassigned. */
  function Assigned(p: Plan, s: Load, i: nat): int
    requires i < |s.quantity| && p.n > 0 && s.free >= 0
    requires 0 <= s.target < |s.quantity| && s.index < |s.quantity|
  {
    var pool := s.free + Released(p, s, i);
    var toAdd := Min(pool, Want(p, s, i));
    if pool == 0 then 0 else if toAdd < 1 then 1 else toAdd
  }

  ghost predicate Shape(p: Plan, s: Load) {
    p.n > 0 && |s.held| == p.n && |s.quantity| == p.n && s.free >= 0
    && 0 <= s.target < p.n && 0 <= s.index < p.n
  }

  function Pay(s: Load, target: int, rel: int): Load
    requires 0 <= target < |s.held| == |s.quantity|
  {
    s.(held := s.held[target := s.held[target] - rel], quantity := s.quantity[target := s.quantity[target] - rel],
       free := s.free + rel, commands := s.commands + rel)
  }

  function Receive(s: Load, i: nat, add: int): Load
    requires i < |s.held|
  {
    s.(held := s.held[i := s.held[i] + add], free := s.free - add, commands := s.commands + add)
  }

  /** The effect of one turn: `rel` configs leave the target, `add` configs reach host `i`. */
  function Move(s: Load, target: int, index: int, i: nat, rel: int, add: int): Load
    requires 0 <= target < |s.held| == |s.quantity| && i < |s.held|
  {
    Receive(Pay(s.(target := target, index := index), target, rel), i, add)
  }

  function Turn(p: Plan, s: Load, i: nat): (r: Load)
    requires Shape(p, s) && i < p.n
    ensures Shape(p, r)
  {
    var (target, index) := Advance(p, s);
    Move(s, target, index, i, Released(p, s, i), Assigned(p, s, i))
  }

  function Start(counts: seq<int>, free: nat): Load
    requires |counts| > 0
  {
    Load(counts, counts, free, |counts| - 1, |counts| - 1, 0)
  }

  /** The counts after the first k hosts had their turn. */
  function After(p: Plan, counts: seq<int>, free: nat, k: nat): (r: Load)
    requires p.n > 0 && |counts| == p.n && k <= p.n
    ensures Shape(p, r)
  {
    if k == 0 then Start(counts, free) else Turn(p, After(p, counts, free, k - 1), k - 1)
  }

  /** Every turn keeps it. */
  ghost predicate EveryTurnKeeps(p: Plan, inv: (nat, Load) -> bool) {
    forall i: nat, s: Load {:trigger Turn(p, s, i)} :: i < p.n && Shape(p, s) && inv(i, s) ==> inv(i + 1, Turn(p, s, i))
  }

  /** The points of a pass, as a function of how many hosts were served. */
  ghost function Points(p: Plan, counts: seq<int>, free: nat): nat -> Load
    requires p.n > 0 && |counts| == p.n
  {
    (i: nat) => After(p, counts, free, if i <= p.n then i else p.n)
  }

  ghost predicate IsTurn(p: Plan, at: nat -> Load, i: nat) {
    i < p.n && Shape(p, at(i)) && at(i + 1) == Turn(p, at(i), i)
  }

  /** Every point is a turn away from the one before. */
  ghost predicate IsPass(p: Plan, at: nat -> Load) {
    forall i: nat :: i < p.n ==> IsTurn(p, at, i)
  }

  lemma AfterIsTurn(p: Plan, counts: seq<int>, free: nat, i: nat)
    requires p.n > 0 && |counts| == p.n && i < p.n
    ensures After(p, counts, free, i + 1) == Turn(p, After(p, counts, free, i), i)
  {}

  lemma PointIsTurn(p: Plan, counts: seq<int>, free: nat, i: nat)
    requires p.n > 0 && |counts| == p.n && i < p.n
    ensures IsTurn(p, Points(p, counts, free), i)
  {
    AfterIsTurn(p, counts, free, i);
  }

  lemma {:induction false} Along(p: Plan, at: nat -> Load, inv: (nat, Load) -> bool, j: nat, k: nat)
    requires j <= k <= p.n && IsPass(p, at) && EveryTurnKeeps(p, inv) && inv(j, at(j))
    ensures inv(k, at(k))
  {
    if j < k {
      Along(p, at, inv, j, k - 1);
      assert IsTurn(p, at, k - 1);
    }
  }

  /** What holds after j turns and is kept by every turn holds after k turns. */
  lemma Throughout(p: Plan, counts: seq<int>, free: nat, inv: (nat, Load) -> bool, j: nat, k: nat)
    requires p.n > 0 && |counts| == p.n && j <= k <= p.n
    requires EveryTurnKeeps(p, inv) && inv(j, After(p, counts, free, j))
    ensures inv(k, After(p, counts, free, k))
  {
    forall i: nat | i < p.n ensures IsTurn(p, Points(p, counts, free), i) { PointIsTurn(p, counts, free, i); }
    Along(p, Points(p, counts, free), inv, j, k);
  }

  /** The situation the balancer is called in: sorted counts, and every config held once or free. */
  ghost predicate Ready(p: Plan, counts: seq<int>, free: nat) {
    && p.n > 0 && |counts| == p.n
    && (forall i :: 0 <= i < p.n ==> counts[i] >= 0)
    && (forall i, j :: 0 <= i <= j < p.n ==> counts[i] <= counts[j])
    && Fits(p, Sum(counts) + free)
  }

  /** What holds of one host: its count before the pass, the believed and the actual count now. */
  ghost predicate HostKept(average: int, count: int, quantity: int, held: int, served: bool, anyFree: bool) {
    && (count <= average ==> quantity == count)
    && (count > average ==> average <= quantity <= count)
    && (!served ==> held == quantity)
    && (served && count < average ==> count <= held <= average)
    && (served && count >= average ==> quantity <= held <= quantity + 1)
    && (served && anyFree ==> held >= average)
    && (served && anyFree && count >= average ==> held == quantity + 1)
  }

  /** What every turn keeps, k hosts having been served. */
  ghost predicate Kept(p: Plan, counts: seq<int>, free: nat, k: nat, s: Load)
    requires |counts| == p.n
  {
    && Shape(p, s)
    && Sum(s.held) + s.free == Sum(counts) + free
    && s.free <= free
    && s.commands >= 0
    && (forall j :: 0 <= j < p.n ==>
        HostKept(p.average, counts[j], s.quantity[j], s.held[j], j < k, s.free > 0))
  }

  /** When host k sits exactly at the average and configs are still free, fewer than n are. */
  lemma FallbackIsZero(p: Plan, counts: seq<int>, free: nat, k: nat, s: Load)
    requires Ready(p, counts, free) && k < p.n && Kept(p, counts, free, k, s)
    requires s.quantity[k] == p.average && s.free > 0
    ensures s.free <= Sum(counts) + free - Times(p.n, p.average)
    ensures s.free / p.n == 0
  {
    forall j | 0 <= j < p.n ensures s.held[j] >= p.average {
      if j >= k {
        assert counts[k] <= counts[j];
        assert counts[k] >= p.average;
      }
    }
    SumAtLeast(s.held, p.average);
    SmallShare(s.free, p.n);
  }

  /** One turn in plain terms: what is wanted, who pays, and that payer and receiver differ. */
  lemma TurnInPlainTerms(p: Plan, counts: seq<int>, free: nat, k: nat, s: Load)
    requires Ready(p, counts, free) && k < p.n && Kept(p, counts, free, k, s)
    ensures var t := Advance(p, s).0; var w := Want(p, s, k); var rel := Released(p, s, k);
      && (s.quantity[k] < p.average ==> w == p.average - s.quantity[k])
      && (s.quantity[k] > p.average ==> w == p.average - s.quantity[k])
      && (s.quantity[k] == p.average ==> w == (if s.quantity[t] > p.average + 1 then 1 else 0))
      && (rel > 0 ==> t != k && s.quantity[t] > p.average && rel <= s.quantity[t] - p.average && rel <= w)
  {
    if s.quantity[k] == p.average && s.free > 0 {
      FallbackIsZero(p, counts, free, k, s);
    }
  }

  lemma MoveSum(s: Load, t: int, index: int, k: nat, rel: int, add: int)
    requires 0 <= t < |s.held| == |s.quantity| && k < |s.held|
    ensures var r := Move(s, t, index, k, rel, add);
      && Sum(r.held) == Sum(s.held) - rel + add
      && Sum(r.quantity) == Sum(s.quantity) - rel
  {
    SumUpdate(s.held, t, s.held[t] - rel);
    var mid := s.held[t := s.held[t] - rel];
    SumUpdate(mid, k, mid[k] + add);
    SumUpdate(s.quantity, t, s.quantity[t] - rel);
  }

  /** What a turn of host k may do, without saying how the amounts are computed. */
  ghost predicate Proper(p: Plan, s: Load, k: nat, t: int, rel: int, add: int)
    requires Shape(p, s) && k < p.n
  {
    && 0 <= t < p.n && rel >= 0 && add >= 0 && s.free + rel - add >= 0
    && (rel > 0 ==> t != k && s.quantity[t] - rel >= p.average && s.quantity[k] <= p.average)
    && rel <= add
    && (s.free + rel > 0 ==> add >= 1)
    && (s.quantity[k] < p.average ==> add <= p.average - s.quantity[k])
    && (s.quantity[k] < p.average && s.free + rel - add > 0 ==> add == p.average - s.quantity[k])
    && (s.quantity[k] >= p.average ==> add <= 1)
  }

  lemma TurnIsProper(p: Plan, counts: seq<int>, free: nat, k: nat, s: Load)
    requires Ready(p, counts, free) && k < p.n && Kept(p, counts, free, k, s)
    ensures Proper(p, s, k, Advance(p, s).0, Released(p, s, k), Assigned(p, s, k))
  {
    TurnInPlainTerms(p, counts, free, k, s);
  }

  lemma MoveAt(s: Load, t: int, index: int, k: nat, rel: int, add: int, j: nat)
    requires 0 <= t < |s.held| == |s.quantity| && k < |s.held| && j < |s.held|
    ensures var r := Move(s, t, index, k, rel, add);
      && r.held[j] == s.held[j] - (if j == t then rel else 0) + (if j == k then add else 0)
      && r.quantity[j] == s.quantity[j] - (if j == t then rel else 0)
  {}

  lemma MoveKeeps(p: Plan, counts: seq<int>, free: nat, k: nat, s: Load, t: int, index: int, rel: int, add: int)
    requires Ready(p, counts, free) && k < p.n && Kept(p, counts, free, k, s)
    requires Proper(p, s, k, t, rel, add) && 0 <= index < p.n
    ensures Kept(p, counts, free, k + 1, Move(s, t, index, k, rel, add))
  {
    MoveSum(s, t, index, k, rel, add);
    forall j | 0 <= j < p.n
      ensures var r := Move(s, t, index, k, rel, add);
        HostKept(p.average, counts[j], r.quantity[j], r.held[j], j < k + 1, r.free > 0)
    {
      MoveKeepsHost(p, counts, free, k, s, t, index, rel, add, j);
    }
  }

  lemma MoveKeepsHost(p: Plan, counts: seq<int>, free: nat, k: nat, s: Load, t: int, index: int, rel: int, add: int,
                      j: nat)
    requires Shape(p, s) && |counts| == p.n && k < p.n && j < p.n && Proper(p, s, k, t, rel, add)
    requires HostKept(p.average, counts[j], s.quantity[j], s.held[j], j < k, s.free > 0)
    requires HostKept(p.average, counts[k], s.quantity[k], s.held[k], false, s.free > 0)
    ensures var r := Move(s, t, index, k, rel, add);
      HostKept(p.average, counts[j], r.quantity[j], r.held[j], j < k + 1, r.free > 0)
  {
    MoveAt(s, t, index, k, rel, add, j);
  }

  lemma TurnKeeps(p: Plan, counts: seq<int>, free: nat, k: nat, s: Load)
    requires Ready(p, counts, free) && k < p.n && Kept(p, counts, free, k, s)
    ensures Kept(p, counts, free, k + 1, Turn(p, s, k))
  {
    TurnIsProper(p, counts, free, k, s);
    var (t, index) := Advance(p, s);
    MoveKeeps(p, counts, free, k, s, t, index, Released(p, s, k), Assigned(p, s, k));
  }

  lemma AlwaysKept(p: Plan, counts: seq<int>, free: nat, k: nat)
    requires Ready(p, counts, free) && k <= p.n
    ensures Kept(p, counts, free, k, After(p, counts, free, k))
  {
    var inv := (i: nat, s: Load) => Kept(p, counts, free, i, s);
    forall i: nat, s: Load | i < p.n && Shape(p, s) && inv(i, s) ensures inv(i + 1, Turn(p, s, i)) {
      TurnKeeps(p, counts, free, i, s);
    }
    assert After(p, counts, free, 0) == Start(counts, free);
    Throughout(p, counts, free, inv, 0, k);
  }

  /** The share `setLen / len(hosts)` of the unassigned configs is zero whenever it is consulted. */
  lemma ShareIsAlwaysZero(p: Plan, counts: seq<int>, free: nat, k: nat)
    requires Ready(p, counts, free) && k < p.n
    ensures var s := After(p, counts, free, k);
      s.quantity[k] == p.average && s.free > 0 ==>
      s.free / p.n == 0 && s.free <= Sum(counts) + free - Times(p.n, p.average)
  {
    AlwaysKept(p, counts, free, k);
    var s := After(p, counts, free, k);
    if s.quantity[k] == p.average && s.free > 0 {
      FallbackIsZero(p, counts, free, k, s);
    }
  }

  /** Per-host bounds over a whole pass, and exact conservation of configs. */
  lemma PassBounds(p: Plan, counts: seq<int>, free: nat)
    requires Ready(p, counts, free)
    ensures var s := After(p, counts, free, p.n);
      && Sum(s.held) + s.free == Sum(counts) + free
      && (forall j :: 0 <= j < p.n ==> s.held[j] >= Min(counts[j], p.average))
      && (forall j :: 0 <= j < p.n && counts[j] < p.average ==> s.held[j] <= p.average)
      && (forall j :: 0 <= j < p.n && counts[j] >= p.average ==> s.held[j] <= counts[j] + 1)
  {
    AlwaysKept(p, counts, free, p.n);
  }

  /** A positive release is paid by another host than the one served, and leaves it at the average or above. */
  lemma ReleaseIsSound(p: Plan, counts: seq<int>, free: nat, k: nat)
    requires Ready(p, counts, free) && k < p.n
    ensures var s := After(p, counts, free, k); var t := Advance(p, s).0; var rel := Released(p, s, k);
      && 0 <= rel <= s.held[t]
      && (rel > 0 ==> t != k && s.quantity[t] - rel >= p.average && s.held[t] >= s.quantity[t])
  {
    AlwaysKept(p, counts, free, k);
    var s := After(p, counts, free, k);
    var t := Advance(p, s).0;
    TurnInPlainTerms(p, counts, free, k, s);
    assert HostKept(p.average, counts[t], s.quantity[t], s.held[t], t < k, s.free > 0);
  }

  /** A pass never increases the number of unassigned configs, and leaves fewer than n of them. */
  lemma OnePassProgress(p: Plan, counts: seq<int>, free: nat)
    requires Ready(p, counts, free)
    ensures var s := After(p, counts, free, p.n); var total := Sum(counts) + free;
      && 0 <= s.free <= free
      && s.free <= total - Times(p.n, p.average)
      && (s.free > 0 ==> forall j :: 0 <= j < p.n ==> s.held[j] >= p.average)
      && (total == Times(p.n, p.average) ==> s.free == 0)
  {
    AlwaysKept(p, counts, free, p.n);
    var s := After(p, counts, free, p.n);
    if s.free > 0 {
      SumAtLeast(s.held, p.average);
    }
  }

  /** Serving a host at the average or above either costs a surplus config or hands out a free one. */
  lemma TurnSpends(p: Plan, counts: seq<int>, free: nat, k: nat, s: Load)
    requires Ready(p, counts, free) && k < p.n && Kept(p, counts, free, k, s)
    requires counts[k] >= p.average
    ensures var r := Turn(p, s, k);
      && (s.free == 0 ==> r.free == 0)
      && (r.free > 0 ==> r.free + 1 == s.free + (Sum(s.quantity) - Sum(r.quantity)))
  {
    TurnIsProper(p, counts, free, k, s);
    assert HostKept(p.average, counts[k], s.quantity[k], s.held[k], false, s.free > 0);
    var (t, index) := Advance(p, s);
    MoveSum(s, t, index, k, Released(p, s, k), Assigned(p, s, k));
  }

  /**
   When every host starts at the average or above, each turn either moves one config off an
   overloaded host or hands out a free one, and there are too few surplus configs to use up all turns.
   */
  lemma FreeRunsOut(p: Plan, counts: seq<int>, free: nat, k: nat)
    requires Ready(p, counts, free) && k <= p.n
    requires forall j :: 0 <= j < p.n ==> counts[j] >= p.average
    ensures var s := After(p, counts, free, k);
      s.free > 0 ==> s.free + k <= free + Sum(counts) - Sum(s.quantity)
  {
    var inv := (i: nat, s: Load) =>
      Kept(p, counts, free, i, s) && (s.free > 0 ==> s.free + i <= free + Sum(counts) - Sum(s.quantity));
    forall i: nat, s: Load | i < p.n && Shape(p, s) && inv(i, s) ensures inv(i + 1, Turn(p, s, i)) {
      TurnKeeps(p, counts, free, i, s);
      TurnSpends(p, counts, free, i, s);
    }
    AlwaysKept(p, counts, free, 0);
    assert After(p, counts, free, 0) == Start(counts, free);
    Throughout(p, counts, free, inv, 0, k);
  }

  /** A pass that starts with every host at the average or above assigns everything. */
  lemma SecondPassFinishes(p: Plan, counts: seq<int>, free: nat)
    requires Ready(p, counts, free)
    requires forall j :: 0 <= j < p.n ==> counts[j] >= p.average
    ensures After(p, counts, free, p.n).free == 0
  {
    var s := After(p, counts, free, p.n);
    AlwaysKept(p, counts, free, p.n);
    FreeRunsOut(p, counts, free, p.n);
    SumAtLeast(s.quantity, p.average);
  }

  /**
   What one pass leaves: every host that started at the average or above ends above it if anything
   stays free, so each of them uses up one of the configs that do not divide evenly.
   */
  lemma OnePassLeaves(p: Plan, counts: seq<int>, free: nat)
    requires Ready(p, counts, free)
    ensures var s := After(p, counts, free, p.n); var left := Sum(counts) + free - Times(p.n, p.average);
      && (s.free > 0 ==> s.free + CountAtLeast(counts, p.average) <= left)
      && (CountAtLeast(counts, p.average) >= left ==> s.free == 0)
  {
    AlwaysKept(p, counts, free, p.n);
    var s := After(p, counts, free, p.n);
    if s.free > 0 {
      forall j | 0 <= j < p.n ensures s.held[j] >= if counts[j] >= p.average then p.average + 1 else p.average {
        assert HostKept(p.average, counts[j], s.quantity[j], s.held[j], true, true);
      }
      SumWithGains(s.held, counts, p.average);
    }
  }

  /** Nobody is believed to hold anything, and k shares of the average are handed out. */
  ghost predicate Filled(p: Plan, free: nat, k: nat, s: Load) {
    && |s.quantity| == p.n && (forall j :: 0 <= j < p.n ==> s.quantity[j] == 0)
    && s.free == free - Times(k, p.average)
  }

  lemma EmptyTurn(p: Plan, free: nat, s: Load, k: nat)
    requires Shape(p, s) && k < p.n && p.average > 0 && Filled(p, free, k, s) && Times(k + 1, p.average) <= free
    ensures Filled(p, free, k + 1, Turn(p, s, k))
  {
    assert s.free >= p.average;
    assert Released(p, s, k) == 0 && Assigned(p, s, k) == p.average;
    var (t, index) := Advance(p, s);
    forall j | 0 <= j < p.n ensures Turn(p, s, k).quantity[j] == 0 { MoveAt(s, t, index, k, 0, p.average, j); }
  }

  /** On an empty cluster every turn hands out exactly the average. */
  lemma EmptyClusterFills(p: Plan, counts: seq<int>, free: nat, k: nat)
    requires p.n > 0 && |counts| == p.n && k <= p.n && p.average > 0 && Times(p.n, p.average) <= free
    requires forall j :: 0 <= j < p.n ==> counts[j] == 0
    ensures Filled(p, free, k, After(p, counts, free, k))
  {
    var inv := (i: nat, s: Load) => Filled(p, free, i, s);
    forall i: nat, s: Load | i < p.n && Shape(p, s) && inv(i, s) ensures inv(i + 1, Turn(p, s, i)) {
      TimesGrows(i + 1, p.n, p.average);
      EmptyTurn(p, free, s, i);
    }
    assert After(p, counts, free, 0) == Start(counts, free);
    Throughout(p, counts, free, inv, 0, k);
  }

  lemma {:induction false} SumOfZeros(counts: seq<int>)
    requires forall j :: 0 <= j < |counts| ==> counts[j] == 0
    ensures Sum(counts) == 0
  {
    if counts != [] {
      SumOfZeros(counts[1..]);
    }
  }

  /** One pass assigns everything, whatever the store held. */
  ghost predicate OnePassSuffices(n: nat, configs: nat)
    requires n > 0
  {
    var p := PlanFor(n, configs);
    forall counts, free: nat :: Ready(p, counts, free) && Sum(counts) + free == configs ==>
      After(p, counts, free, n).free == 0
  }

  /**
   One pass is enough for every store exactly when the configs divide evenly over the hosts, or are
   fewer than the hosts.
   */
  lemma OnePassIsEnough(n: nat, configs: nat)
    requires n > 0
    ensures OnePassSuffices(n, configs) <==> configs % n == 0 || configs < n
  {
    var p := PlanFor(n, configs);
    PlanFits(n, configs);
    if configs % n == 0 || configs < n {
      forall counts, free: nat | Ready(p, counts, free) && Sum(counts) + free == configs
        ensures After(p, counts, free, n).free == 0
      {
        if configs % n == 0 {
          OnePassProgress(p, counts, free);
        } else {
          SmallShare(configs, n);
          SecondPassFinishes(p, counts, free);
        }
      }
    } else {
      var counts := seq(n, _ => 0);
      OnePassMayLeaveSome(n, configs, counts);
      assert Ready(p, counts, configs);
    }
  }

  /** Otherwise the empty cluster keeps what does not divide evenly unassigned. */
  lemma OnePassMayLeaveSome(n: nat, configs: nat, counts: seq<int>)
    requires 0 < n <= configs && configs % n != 0
    requires |counts| == n && forall j :: 0 <= j < n ==> counts[j] == 0
    ensures var p := PlanFor(n, configs);
      Ready(p, counts, configs) && Sum(counts) == 0 && After(p, counts, configs, n).free == configs % n > 0
  {
    var p := PlanFor(n, configs);
    PlanFits(n, configs);
    SumOfZeros(counts);
    AverageIsPositive(n, configs);
    EmptyClusterFills(p, counts, configs, n);
  }

  /** The smallest case: three configs on two hosts. */
  lemma ThreeConfigsNeedTwoPasses()
    ensures !OnePassSuffices(2, 3)
  {
    OnePassIsEnough(2, 3);
  }

  lemma AverageIsPositive(n: nat, configs: nat)
    requires 0 < n <= configs
    ensures configs / n > 0
  {}

  ghost predicate Level(p: Plan, counts: seq<int>) {
    forall j :: 0 <= j < |counts| ==> counts[j] == p.average || counts[j] == p.permissible
  }

  lemma ShrinksSquares(a: int, b: int, r: int)
    requires r >= 1 && a - b >= 2 * r
    ensures (a - r) * (a - r) + (b + r) * (b + r) + 2 * r <= a * a + b * b
  {
    assert (a - r) * (a - r) + (b + r) * (b + r) == a * a + b * b - 2 * (r * (a - b - r));
    assert r * (a - b - r) >= r * r >= r by {
      assert r * (a - b - r - r) >= 0;
      assert r * (r - 1) >= 0;
    }
  }

  /** Moving `rel` configs downhill by at least twice as much lowers the squares by the commands spent. */
  lemma MoveFlattens(s: Load, t: int, index: int, k: nat, rel: int)
    requires 0 <= t < |s.held| == |s.quantity| && k < |s.held| && t != k
    requires rel >= 1 && s.held[t] - s.held[k] >= 2 * rel
    ensures Squares(Move(s, t, index, k, rel, rel).held) + 2 * rel <= Squares(s.held)
  {
    ShrinksSquares(s.held[t], s.held[k], rel);
    SquaresUpdate(s.held, t, s.held[t] - rel);
    var mid := s.held[t := s.held[t] - rel];
    SquaresUpdate(mid, k, mid[k] + rel);
  }

  ghost predicate Faithful(p: Plan, s: Load) {
    |s.held| == |s.quantity| &&
    forall j :: 0 <= j < |s.held| && s.quantity[j] > p.average ==> s.held[j] == s.quantity[j]
  }

  /** With nothing free, a turn moves exactly what it releases, and flattens the distribution. */
  lemma TurnFlattens(p: Plan, counts: seq<int>, k: nat, s: Load)
    requires Ready(p, counts, 0) && k < p.n && Kept(p, counts, 0, k, s) && Faithful(p, s)
    ensures var r := Turn(p, s, k);
      && Squares(r.held) + r.commands <= Squares(s.held) + s.commands
      && Faithful(p, r)
  {
    TurnInPlainTerms(p, counts, 0, k, s);
    var (t, index) := Advance(p, s);
    var rel := Released(p, s, k);
    assert Assigned(p, s, k) == rel;
    assert HostKept(p.average, counts[k], s.quantity[k], s.held[k], false, s.free > 0);
    if rel > 0 {
      MoveFlattens(s, t, index, k, rel);
    } else {
      assert Turn(p, s, k).held == s.held && Turn(p, s, k).quantity == s.quantity;
    }
  }

  /** So many commands were paid for by the squares, and surpluses are as believed. */
  ghost predicate Flatter(p: Plan, squares: int, s: Load) {
    Squares(s.held) + s.commands <= squares && Faithful(p, s)
  }

  lemma AlwaysFlatter(p: Plan, counts: seq<int>, k: nat)
    requires Ready(p, counts, 0) && k <= p.n
    ensures Flatter(p, Squares(counts), After(p, counts, 0, k))
  {
    var inv := (i: nat, s: Load) => Kept(p, counts, 0, i, s) && Flatter(p, Squares(counts), s);
    forall i: nat, s: Load | i < p.n && Shape(p, s) && inv(i, s) ensures inv(i + 1, Turn(p, s, i)) {
      TurnKeeps(p, counts, 0, i, s);
      TurnFlattens(p, counts, i, s);
    }
    AlwaysKept(p, counts, 0, 0);
    assert After(p, counts, 0, 0) == Start(counts, 0);
    Throughout(p, counts, 0, inv, 0, k);
  }

  /** At least so many commands were issued. */
  ghost predicate Issued(s: Load, least: int) { s.commands >= least }

  lemma TurnIssues(p: Plan, s: Load, i: nat, least: int)
    requires Shape(p, s) && i < p.n && Issued(s, least)
    ensures Issued(Turn(p, s, i), least)
  {
    assert Released(p, s, i) >= 0 && Assigned(p, s, i) >= 0;
  }

  /** Commands once issued stay issued. */
  lemma CommandsGrow(p: Plan, counts: seq<int>, free: nat, j: nat, k: nat, least: int)
    requires p.n > 0 && |counts| == p.n && j <= k <= p.n && Issued(After(p, counts, free, j), least)
    ensures Issued(After(p, counts, free, k), least)
  {
    var inv := (i: nat, s: Load) => Issued(s, least);
    forall i: nat, s: Load | i < p.n && Shape(p, s) && inv(i, s) ensures inv(i + 1, Turn(p, s, i)) {
      TurnIssues(p, s, i, least);
    }
    Throughout(p, counts, free, inv, j, k);
  }

  /** Nothing moved and nothing was commanded. */
  ghost predicate Unmoved(counts: seq<int>, s: Load) {
    s.held == counts && s.quantity == counts && s.free == 0 && s.commands == 0
  }

  lemma LevelTurn(p: Plan, counts: seq<int>, k: nat, s: Load)
    requires Ready(p, counts, 0) && Level(p, counts) && k < p.n && Shape(p, s) && Unmoved(counts, s)
    ensures Unmoved(counts, Turn(p, s, k))
  {
    var t := Advance(p, s).0;
    assert counts[t] <= p.average + 1 && p.average <= counts[k];
    assert Want(p, s, k) <= 0;
    assert Released(p, s, k) == 0 && Assigned(p, s, k) == 0;
  }

  /** A level cluster is left alone. */
  lemma LevelStays(p: Plan, counts: seq<int>, k: nat)
    requires Ready(p, counts, 0) && Level(p, counts) && k <= p.n
    ensures Unmoved(counts, After(p, counts, 0, k))
  {
    var inv := (i: nat, s: Load) => Unmoved(counts, s);
    forall i: nat, s: Load | i < p.n && Shape(p, s) && inv(i, s) ensures inv(i + 1, Turn(p, s, i)) {
      LevelTurn(p, counts, i, s);
    }
    assert After(p, counts, 0, 0) == Start(counts, 0);
    Throughout(p, counts, 0, inv, 0, k);
  }

  /** An unlevel cluster has a least loaded host at or below the average and a most loaded one above it. */
  lemma UnlevelEnds(p: Plan, counts: seq<int>)
    requires Ready(p, counts, 0) && !Level(p, counts)
    ensures counts[0] <= p.average < counts[p.n - 1]
    ensures counts[0] < p.average || counts[p.n - 1] > p.average + 1
  {
    var j :| 0 <= j < |counts| && counts[j] != p.average && counts[j] != p.permissible;
    assert counts[0] <= counts[j] <= counts[p.n - 1];
    if counts[0] > p.average {
      SumAtLeast(counts, p.average + 1);
      TimesAddsOne(p.n, p.average);
    }
    if counts[p.n - 1] <= p.average {
      SumUpdate(counts, 0, p.average);
      SumAtMost(counts[0 := p.average], p.average);
    }
    if counts[0] == p.average == p.permissible {
      SumUpdate(counts, p.n - 1, p.average);
      SumAtLeast(counts[p.n - 1 := p.average], p.average);
    }
  }

  /** In an unlevel cluster the very first turn already moves a config. */
  lemma UnlevelMoves(p: Plan, counts: seq<int>)
    requires Ready(p, counts, 0) && !Level(p, counts)
    ensures Released(p, Start(counts, 0), 0) > 0
  {
    UnlevelEnds(p, counts);
    var s := Start(counts, 0);
    assert s.quantity[Advance(p, s).0] == counts[p.n - 1];
  }

  /**
   With every config assigned, a pass either issues no command at all, which happens exactly when
   every host holds the average or the permissible number, or it lowers the sum of squared counts.
   */
  lemma PassConverges(p: Plan, counts: seq<int>)
    requires Ready(p, counts, 0)
    ensures var s := After(p, counts, 0, p.n);
      && s.free == 0
      && (s.commands == 0 <==> Level(p, counts))
      && (Level(p, counts) ==> s.held == counts)
      && (!Level(p, counts) ==> Squares(s.held) < Squares(counts))
  {
    AlwaysKept(p, counts, 0, p.n);
    AlwaysFlatter(p, counts, p.n);
    if Level(p, counts) {
      LevelStays(p, counts, p.n);
    } else {
      UnlevelMoves(p, counts);
      assert After(p, counts, 0, 0) == Start(counts, 0);
      assert Issued(After(p, counts, 0, 1), 1);
      CommandsGrow(p, counts, 0, 1, p.n, 1);
    }
  }
}
