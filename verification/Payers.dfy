/**
 Who pays in a pass.  The turns are written out from the loads alone, the payers are counted off from
 the most loaded host down, and no surplus is passed over but once.
 */
module Payers {
  import opened Sums
  import opened Balance
  import opened Maximum

  /** The payer is believed at or below the permissible number and there is a host to turn to next. */
  predicate Dry(p: Plan, s: Load) {
    0 <= s.target < |s.quantity| && s.quantity[s.target] <= p.permissible && s.index > 0
  }

  /** How many of the first k turns of a pass began with a dry payer. */
  function DryTurns(p: Plan, at: nat -> Load, k: nat): nat {
    if k == 0 then 0 else DryTurns(p, at, k - 1) + if Dry(p, at(k - 1)) then 1 else 0
  }

  /** Turning to the next payer lowers the index by one, and makes the host it named the payer. */
  ghost predicate TurnsTo(p: Plan, s: Load, r: Load) {
    if Dry(p, s) then r.target == s.index && r.index == s.index - 1 else r.target == s.target && r.index == s.index
  }

  lemma TurnTurnsTo(p: Plan, s: Load, k: nat)
    requires Shape(p, s) && k < p.n
    ensures TurnsTo(p, s, Turn(p, s, k))
  {}

  lemma {:induction false} IndexAlong(p: Plan, at: nat -> Load, k: nat)
    requires IsPass(p, at) && k <= p.n && at(0).index == p.n - 1
    ensures at(k).index == p.n - 1 - DryTurns(p, at, k)
  {
    if k > 0 {
      IndexAlong(p, at, k - 1);
      assert IsTurn(p, at, k - 1);
      TurnTurnsTo(p, at(k - 1), k - 1);
    }
  }

  lemma PointsArePass(p: Plan, counts: seq<int>, free: nat)
    requires p.n > 0 && |counts| == p.n
    ensures IsPass(p, Points(p, counts, free)) && Points(p, counts, free)(0) == Start(counts, free)
  {
    assert After(p, counts, free, 0) == Start(counts, free);
    forall i: nat | i < p.n ensures IsTurn(p, Points(p, counts, free), i) { PointIsTurn(p, counts, free, i); }
  }

  /** The most loaded host pays first, and each dry turn moves on by one host: payers are left behind one per turn. */
  lemma IndexCounts(p: Plan, counts: seq<int>, free: nat, k: nat)
    requires p.n > 0 && |counts| == p.n && k <= p.n
    ensures After(p, counts, free, k).index == p.n - 1 - DryTurns(p, Points(p, counts, free), k)
  {
    PointsArePass(p, counts, free);
    IndexAlong(p, Points(p, counts, free), k);
  }

  /** What the turn of host k does to the load s, in the loads' own terms. */
  ghost predicate WrittenOut(p: Plan, k: nat, s: Load, r: Load)
    requires Shape(p, s) && Shape(p, r) && k < p.n
  {
    var payer := if s.quantity[s.target] <= p.permissible && s.index > 0 then s.index else s.target;
    var surplus := s.quantity[payer] - p.average;
    var want := if s.quantity[k] != p.average then p.average - s.quantity[k] else if surplus > 1 then 1 else 0;
    var pays := if want <= 0 || surplus <= 0 then 0 else if surplus < want then surplus else want;
    var pool := s.free + pays;
    var gets := if pool == 0 then 0 else if want < 1 then 1 else if pool < want then pool else want;
    && TurnsTo(p, s, r) && r.target == payer
    && r.free == pool - gets && r.commands == s.commands + pays + gets
    && (forall j :: 0 <= j < p.n ==>
        && r.held[j] == s.held[j] - (if j == payer then pays else 0) + (if j == k then gets else 0)
        && r.quantity[j] == s.quantity[j] - (if j == payer then pays else 0))
  }

  /** What is released and assigned in a turn, in the loads' own terms. */
  lemma AmountsOfTurn(p: Plan, counts: seq<int>, free: nat, k: nat, s: Load)
    requires Ready(p, counts, free) && k < p.n && Kept(p, counts, free, k, s)
    ensures var payer := if s.quantity[s.target] <= p.permissible && s.index > 0 then s.index else s.target;
      var surplus := s.quantity[payer] - p.average;
      var want := if s.quantity[k] != p.average then p.average - s.quantity[k] else if surplus > 1 then 1 else 0;
      var pays := if want <= 0 || surplus <= 0 then 0 else if surplus < want then surplus else want;
      var pool := s.free + pays;
      && Advance(p, s).0 == payer && Released(p, s, k) == pays
      && Assigned(p, s, k) == if pool == 0 then 0 else if want < 1 then 1 else if pool < want then pool else want
  {
    TurnInPlainTerms(p, counts, free, k, s);
  }

  lemma TurnIsWrittenOut(p: Plan, counts: seq<int>, free: nat, k: nat, s: Load)
    requires Ready(p, counts, free) && k < p.n && Kept(p, counts, free, k, s)
    ensures WrittenOut(p, k, s, Turn(p, s, k))
  {
    AmountsOfTurn(p, counts, free, k, s);
    TurnTurnsTo(p, s, k);
    var (t, index) := Advance(p, s);
    var rel, add := Released(p, s, k), Assigned(p, s, k);
    assert Turn(p, s, k) == Move(s, t, index, k, rel, add);
    forall j | 0 <= j < p.n
      ensures Turn(p, s, k).held[j] == s.held[j] - (if j == t then rel else 0) + (if j == k then add else 0)
      ensures Turn(p, s, k).quantity[j] == s.quantity[j] - (if j == t then rel else 0)
    {
      MoveAt(s, t, index, k, rel, add, j);
    }
  }

  /** Every turn of a pass, written out; the pass starts with the most loaded host as the payer. */
  lemma PassIsWrittenOut(p: Plan, counts: seq<int>, free: nat, k: nat)
    requires Ready(p, counts, free) && k < p.n
    ensures WrittenOut(p, k, After(p, counts, free, k), After(p, counts, free, k + 1))
    ensures After(p, counts, free, 0) == Load(counts, counts, free, p.n - 1, p.n - 1, 0)
  {
    AlwaysKept(p, counts, free, k);
    AfterIsTurn(p, counts, free, k);
    TurnIsWrittenOut(p, counts, free, k, After(p, counts, free, k));
  }

  // ----- a surplus is passed over once at most

  /** Host k is below the average and its turn gives it nothing. */
  ghost predicate GetsNothing(p: Plan, k: nat, s: Load, r: Load)
    requires Shape(p, s) && Shape(p, r) && k < p.n
  {
    s.quantity[k] < p.average && r.held[k] == s.held[k]
  }

  /** Some host is believed above the permissible number. */
  ghost predicate Overloaded(p: Plan, s: Load) {
    exists j :: 0 <= j < |s.quantity| && s.quantity[j] > p.permissible
  }

  /** A host below the average gets nothing only in the turn of a payer that holds no more than the average. */
  lemma NothingMeansDry(p: Plan, counts: seq<int>, free: nat, k: nat, s: Load)
    requires Ready(p, counts, free) && k < p.n && Kept(p, counts, free, k, s)
    requires GetsNothing(p, k, s, Turn(p, s, k))
    ensures var r := Turn(p, s, k); s.free == 0 && s.quantity[r.target] <= p.average && r.quantity == s.quantity
  {
    TurnIsWrittenOut(p, counts, free, k, s);
    var r := Turn(p, s, k);
    assert r.target != k || s.quantity[k] < p.average;
    assert r.held[k] == s.held[k];
  }

  /** If it does while some host is overloaded, then the pass just turned to its first payer a second time. */
  lemma PassedOverFirst(p: Plan, counts: seq<int>, free: nat, k: nat, s: Load)
    requires Ready(p, counts, free) && k < p.n && Kept(p, counts, free, k, s) && Frontier(p, counts, s)
    requires GetsNothing(p, k, s, Turn(p, s, k)) && Overloaded(p, s)
    ensures s.index == s.target && Turn(p, s, k).index < Turn(p, s, k).target
  {
    NothingMeansDry(p, counts, free, k, s);
    TurnIsWrittenOut(p, counts, free, k, s);
    TurnTurnsTo(p, s, k);
    var t := Turn(p, s, k).target;
    var j :| 0 <= j < p.n && s.quantity[j] > p.permissible;
    assert HostKept(p.average, counts[k], s.quantity[k], s.held[k], false, false);
    assert HostKept(p.average, counts[j], s.quantity[j], s.held[j], j < k, false);
    assert counts[k] < p.average < counts[j];
    assert j < t;
    assert counts[j] <= counts[t];
  }

  /** Once the payer is ahead of the index it stays so. */
  ghost predicate Ahead(s: Load) { s.index < s.target }

  lemma {:induction false} AheadStays(p: Plan, at: nat -> Load, j: nat, k: nat)
    requires IsPass(p, at) && j <= k <= p.n && Ahead(at(j))
    ensures Ahead(at(k))
  {
    if j < k {
      AheadStays(p, at, j, k - 1);
      assert IsTurn(p, at, k - 1);
      TurnTurnsTo(p, at(k - 1), k - 1);
    }
  }

  /** Host k is below the average and gets nothing although some host is overloaded. */
  ghost predicate PassedOver(p: Plan, at: nat -> Load, k: nat) {
    && k < p.n && Shape(p, at(k)) && Shape(p, at(k + 1))
    && GetsNothing(p, k, at(k), at(k + 1)) && Overloaded(p, at(k))
  }

  /** What holds at every point of a pass. */
  ghost predicate GoodPoint(p: Plan, counts: seq<int>, free: nat, at: nat -> Load, k: nat) {
    |counts| == p.n && k <= p.n && Kept(p, counts, free, k, at(k)) && Frontier(p, counts, at(k))
  }

  ghost predicate GoodPass(p: Plan, counts: seq<int>, free: nat, at: nat -> Load) {
    Ready(p, counts, free) && IsPass(p, at) && forall k: nat :: k <= p.n ==> GoodPoint(p, counts, free, at, k)
  }

  lemma PointIsGood(p: Plan, counts: seq<int>, free: nat, k: nat)
    requires Ready(p, counts, free) && k <= p.n
    ensures GoodPoint(p, counts, free, Points(p, counts, free), k)
  {
    AlwaysKept(p, counts, free, k);
    AlwaysFrontier(p, counts, free, k);
  }

  lemma PointsAreGood(p: Plan, counts: seq<int>, free: nat)
    requires Ready(p, counts, free)
    ensures GoodPass(p, counts, free, Points(p, counts, free))
  {
    PointsArePass(p, counts, free);
    forall k: nat | k <= p.n ensures GoodPoint(p, counts, free, Points(p, counts, free), k) {
      PointIsGood(p, counts, free, k);
    }
  }

  lemma PassedOverTurnsAhead(p: Plan, counts: seq<int>, free: nat, at: nat -> Load, k: nat)
    requires GoodPass(p, counts, free, at) && PassedOver(p, at, k)
    ensures !Ahead(at(k)) && Ahead(at(k + 1))
  {
    assert GoodPoint(p, counts, free, at, k) && IsTurn(p, at, k);
    PassedOverFirst(p, counts, free, k, at(k));
  }

  lemma NoneAfterwards(p: Plan, counts: seq<int>, free: nat, at: nat -> Load, j: nat, k: nat)
    requires GoodPass(p, counts, free, at) && j < k && PassedOver(p, at, j)
    ensures !PassedOver(p, at, k)
  {
    if PassedOver(p, at, k) {
      PassedOverTurnsAhead(p, counts, free, at, j);
      AheadStays(p, at, j + 1, k);
      PassedOverTurnsAhead(p, counts, free, at, k);
    }
  }

  /** In a whole pass at most one host is passed over. */
  lemma OnePassedOver(p: Plan, counts: seq<int>, free: nat, at: nat -> Load, j: nat, k: nat)
    requires GoodPass(p, counts, free, at) && PassedOver(p, at, j) && PassedOver(p, at, k)
    ensures j == k
  {
    if j < k {
      NoneAfterwards(p, counts, free, at, j, k);
    } else if k < j {
      NoneAfterwards(p, counts, free, at, k, j);
    }
  }

  // ----- what this means for the ends of a pass

  /** Host k started below the average and ends with what it had. */
  ghost predicate LeftBehind(p: Plan, counts: seq<int>, end: Load, k: nat) {
    k < |counts| == |end.held| && counts[k] < p.average && end.held[k] == counts[k]
  }

  /** What a host below the average is believed to hold is what it had. */
  lemma BelowAverage(p: Plan, counts: seq<int>, free: nat, at: nat -> Load, i: nat, k: nat)
    requires GoodPass(p, counts, free, at) && k < p.n && i <= p.n && counts[k] < p.average
    ensures |at(i).quantity| == |at(i).held| == p.n
    ensures at(i).quantity[k] == counts[k] && (i <= k ==> at(i).held[k] == counts[k])
  {
    assert GoodPoint(p, counts, free, at, i);
    var s := at(i);
    assert HostKept(p.average, counts[k], s.quantity[k], s.held[k], k < i, s.free > 0);
  }

  lemma GapAlong(p: Plan, at: nat -> Load, j: nat, k: nat, gain: int)
    requires IsPass(p, at) && j < k <= p.n && Gap(at(j + 1), j, gain)
    ensures Gap(at(k), j, gain)
  {
    var inv := (i: nat, s: Load) => i > j && Gap(s, j, gain);
    forall i: nat, s: Load | i < p.n && Shape(p, s) && inv(i, s) ensures inv(i + 1, Turn(p, s, i)) {
      GapKept(p, s, i, j, gain);
    }
    Along(p, at, inv, j + 1, k);
  }

  lemma LeftBehindGotNothing(p: Plan, counts: seq<int>, free: nat, at: nat -> Load, k: nat)
    requires GoodPass(p, counts, free, at) && LeftBehind(p, counts, at(p.n), k)
    ensures GoodPoint(p, counts, free, at, k) && GoodPoint(p, counts, free, at, k + 1)
    ensures GetsNothing(p, k, at(k), at(k + 1))
  {
    assert GoodPoint(p, counts, free, at, k) && GoodPoint(p, counts, free, at, k + 1);
    BelowAverage(p, counts, free, at, k, k);
    BelowAverage(p, counts, free, at, k + 1, k);
    BelowAverage(p, counts, free, at, p.n, k);
    GapAlong(p, at, k, p.n, at(k + 1).held[k] - at(k + 1).quantity[k]);
  }

  lemma FallsAlong(p: Plan, counts: seq<int>, free: nat, at: nat -> Load, i: nat, k: nat, j: nat)
    requires GoodPass(p, counts, free, at) && i <= k <= p.n && j < p.n
    ensures Falls(at(i), at(k), j)
  {
    var earlier := at(i);
    var inv := (l: nat, s: Load) => Kept(p, counts, free, l, s) && Falls(earlier, s, j);
    forall l: nat, s: Load | l < p.n && Shape(p, s) && inv(l, s) ensures inv(l + 1, Turn(p, s, l)) {
      TurnKeeps(p, counts, free, l, s);
      TurnFalls(p, counts, free, l, s, j);
    }
    assert GoodPoint(p, counts, free, at, i);
    Along(p, at, inv, i, k);
  }

  /** A host that ends more than one above the permissible number was overloaded all along. */
  lemma StillOverloaded(p: Plan, counts: seq<int>, free: nat, at: nat -> Load, k: nat, z: nat)
    requires GoodPass(p, counts, free, at) && k <= p.n && z < p.n
    requires |at(p.n).held| == p.n && at(p.n).held[z] > p.permissible + 1
    ensures Overloaded(p, at(k))
  {
    assert GoodPoint(p, counts, free, at, p.n);
    FallsAlong(p, counts, free, at, k, p.n, z);
    var e := at(p.n);
    assert HostKept(p.average, counts[z], e.quantity[z], e.held[z], true, e.free > 0);
    assert at(k).quantity[z] > p.permissible;
  }

  lemma LeftBehindIsPassedOver(p: Plan, counts: seq<int>, free: nat, at: nat -> Load, k: nat, z: nat)
    requires GoodPass(p, counts, free, at) && LeftBehind(p, counts, at(p.n), k) && z < p.n
    requires |at(p.n).held| == p.n && at(p.n).held[z] > p.permissible + 1
    ensures PassedOver(p, at, k)
  {
    LeftBehindGotNothing(p, counts, free, at, k);
    StillOverloaded(p, counts, free, at, k, z);
  }

  /**
   If a pass ends with some host more than one above the permissible number, then of the hosts that
   started below the average at most one ends with what it had.
   */
  lemma OneLeftBehind(p: Plan, counts: seq<int>, free: nat, x: nat, y: nat, z: nat)
    requires Ready(p, counts, free) && z < p.n
    requires LeftBehind(p, counts, After(p, counts, free, p.n), x)
    requires LeftBehind(p, counts, After(p, counts, free, p.n), y)
    requires After(p, counts, free, p.n).held[z] > p.permissible + 1
    ensures x == y
  {
    var at := Points(p, counts, free);
    PointsAreGood(p, counts, free);
    assert at(p.n) == After(p, counts, free, p.n);
    LeftBehindIsPassedOver(p, counts, free, at, x, z);
    LeftBehindIsPassedOver(p, counts, free, at, y, z);
    OnePassedOver(p, counts, free, at, x, y);
  }
}
