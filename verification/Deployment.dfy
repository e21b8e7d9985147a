/**
 The leader and the replicas together: passes are run, every replica follows the log they leave, and
 what runs where is read off the handlers.
 */
module Deployment {
  import opened Sums
  import opened Allocation
  import opened Wrappers
  import opened Fsm
  import opened Scheduler
  import opened Stabilisation

  /** The replica is in order, and all that belongs to it is among these objects. */
  ghost predicate Owns(objects: set<object>, r: Replica)
    reads objects
  {
    r in objects && r.store in objects && r.store.made.Keys <= objects && r.Valid()
  }

  /** Each replica owns its part, the parts share nothing, and the names differ. */
  ghost predicate Separate(replicas: seq<Replica>, parts: seq<set<object>>) {
    && |parts| == |replicas|
    && (forall r, s :: 0 <= r < s < |parts| ==> parts[r] !! parts[s])
    && (forall r, s :: 0 <= r < s < |parts| ==> replicas[r].name != replicas[s].name)
  }

  /** Handler i of the replica still dispatches config c. */
  ghost predicate Runs(objects: set<object>, r: Replica, i: int, c: Config)
    reads objects
  {
    Owns(objects, r) && 0 <= i < |r.handlers| && r.Live(i) && r.handlers[i].config == c
  }

  lemma SeparateWithOne(replicas: seq<Replica>, parts: seq<set<object>>, r: Replica, part: set<object>)
    requires Separate(replicas, parts)
    requires forall i :: 0 <= i < |parts| ==> parts[i] !! part && replicas[i].name != r.name
    ensures Separate(replicas + [r], parts + [part])
  {}

  lemma SeparateGrown(replicas: seq<Replica>, parts: seq<set<object>>, i: nat, grown: set<object>)
    requires Separate(replicas, parts) && i < |parts|
    requires forall j :: 0 <= j < |parts| && j != i ==> parts[j] !! grown
    ensures Separate(replicas, parts[i := grown])
  {}

  lemma RunsWhatItHolds(objects: set<object>, r: Replica)
    requires Owns(objects, r)
    ensures forall c :: c in Held(r.Allocation(), r.name) <==> exists i :: Runs(objects, r, i, c)
  {
    r.HandlersMatchStore();
    forall c | c in Held(r.Allocation(), r.name) ensures exists i :: Runs(objects, r, i, c) {
      var i :| 0 <= i < |r.handlers| && r.Live(i) && r.handlers[i].config == c;
      assert Runs(objects, r, i, c);
    }
  }

  /** New and empty replicas under the given names, and all that belongs to them. */
  method MakeReplicas(names: seq<Host>)
    returns (replicas: seq<Replica>, ghost parts: seq<set<object>>, ghost all: set<object>)
    requires Distinct(names)
    ensures |replicas| == |names| && Separate(replicas, parts) && fresh(all)
    ensures forall r :: 0 <= r < |names| ==>
      replicas[r].name == names[r] && parts[r] <= all && Owns(parts[r], replicas[r])
      && replicas[r].Allocation() == map[]
  {
    replicas, parts, all := [], [], {};
    for i := 0 to |names|
      invariant |replicas| == i && Separate(replicas, parts) && fresh(all)
      invariant forall r :: 0 <= r < i ==>
        replicas[r].name == names[r] && parts[r] <= all && Owns(parts[r], replicas[r])
        && replicas[r].Allocation() == map[]
    {
      var replica := new Replica(names[i]);
      ghost var part: set<object> := {replica, replica.store};
      SeparateWithOne(replicas, parts, replica, part);
      replicas, parts, all := replicas + [replica], parts + [part], all + part;
    }
  }

  /** A replica follows the entries; all it has besides is new. */
  method FollowOne(r: Replica, entries: seq<RaftLog>, ghost objects: set<object>) returns (ghost grown: set<object>)
    requires Owns(objects, r)
    modifies objects
    ensures Owns(grown, r) && objects <= grown && fresh(grown - objects)
    ensures r.Allocation() == Replay(old(r.Allocation()), entries, |entries|)
  {
    r.Follow(entries);
    grown := objects + r.store.made.Keys;
  }

  // ----- rounds

  /** What holds of the store after n rounds, kept by every completed pass. */
  ghost predicate Inductive(inv: (nat, Alloc) -> bool, configs: set<Config>, hosts: seq<Host>) {
    forall n: nat, a, k, b {:trigger inv(n, a), CompletedPass(configs, hosts, a, k, b)} ::
      inv(n, a) && CompletedPass(configs, hosts, a, k, b) ==> inv(n + 1, b)
  }

  /** The stores between completed passes over the same hosts. */
  ghost predicate Rounds(configs: set<Config>, hosts: set<Host>, run: seq<Alloc>, n: nat, store: Alloc) {
    |run| == n + 1 && run[n] == store && Passes(configs, hosts, run)
  }

  /** The store after n completed passes over the same hosts, from some store. */
  ghost predicate Reached(configs: set<Config>, hosts: set<Host>, n: nat, store: Alloc) {
    exists run :: Rounds(configs, hosts, run, n, store)
  }

  lemma OneMoreRound(configs: set<Config>, hosts: seq<Host>, n: nat, a: Alloc, commands: int, b: Alloc)
    requires Reached(configs, Elements(hosts), n, a) && CompletedPass(configs, hosts, a, commands, b)
    ensures Reached(configs, Elements(hosts), n + 1, b)
  {
    var run :| Rounds(configs, Elements(hosts), run, n, a);
    var more := run + [b];
    forall i | 0 <= i < |more| - 1 ensures PassBetween(configs, Elements(hosts), more[i], more[i + 1]) {
      if i < n {
        assert PassBetween(configs, Elements(hosts), run[i], run[i + 1]);
      }
    }
    assert Rounds(configs, Elements(hosts), more, n + 1, b);
  }

  ghost function AfterRounds(configs: set<Config>, hosts: set<Host>): (nat, Alloc) -> bool {
    (n: nat, a: Alloc) => Reached(configs, hosts, n, a)
  }

  lemma RoundsAreInductive(configs: set<Config>, hosts: seq<Host>, store: Alloc)
    ensures Inductive(AfterRounds(configs, Elements(hosts)), configs, hosts)
    ensures AfterRounds(configs, Elements(hosts))(0, store)
  {
    var inv := AfterRounds(configs, Elements(hosts));
    forall n: nat, a, k, b | inv(n, a) && CompletedPass(configs, hosts, a, k, b) ensures inv(n + 1, b) {
      OneMoreRound(configs, hosts, n, a, k, b);
    }
    assert Rounds(configs, Elements(hosts), [store], 0, store);
  }

  /** After so many rounds the load is level. */
  function Enough(configs: set<Config>): nat { 3 + |configs| * |configs| }

  lemma RoundsSettle(configs: set<Config>, hosts: seq<Host>, n: nat, store: Alloc)
    requires Distinct(hosts) && hosts != [] && AfterRounds(configs, Elements(hosts))(n, store)
    ensures Elements(hosts) != {}
    ensures n >= 2 ==> Settled(store, Elements(hosts), configs)
    ensures n >= Enough(configs) ==> LevelStore(store, Elements(hosts), configs)
  {
    assert hosts[0] in Elements(hosts);
    var run :| Rounds(configs, Elements(hosts), run, n, store);
    if n >= 2 {
      RunSettles(configs, hosts, run, n);
      if n >= Enough(configs) {
        RunConvergesAndStays(configs, hosts, run, n);
      }
    }
  }

  lemma ReplaySlice(log: seq<RaftLog>, k: nat, m: nat)
    requires k <= m <= |log|
    ensures Replay(Replay(map[], log, k), log[k..m], m - k) == Replay(map[], log, m)
  {
    var a := Replay(map[], log, k);
    assert log[k..m] <= log[k..];
    ReplayPrefix(a, log[k..m], log[k..], m - k);
    ReplayRest(map[], log, k, m - k);
  }

  lemma SlicesAgree(log: seq<RaftLog>, k: nat, m: nat, a: Alloc)
    requires k <= m <= |log| && SameHeld(a, Replay(map[], log, k))
    ensures SameHeld(Replay(a, log[k..m], m - k), Replay(map[], log, m))
  {
    SameHeldReplays(a, Replay(map[], log, k), log[k..m], m - k);
    ReplaySlice(log, k, m);
  }

  ghost predicate HaveReplicas(hosts: set<Host>, replicas: seq<Replica>) {
    forall h :: h in hosts ==> exists r :: 0 <= r < |replicas| && replicas[r].name == h
  }

  // ----- the system

  class System {
    const leader: Cluster
    const replicas: seq<Replica>
    /** What belongs to each replica. */
    ghost var parts: seq<set<object>>
    ghost var Repr: set<object>

    ghost predicate Valid()
      reads this, Repr
    {
      && this in Repr && leader in Repr && leader.Valid() && leader.origin == map[]
      && Separate(replicas, parts)
      && forall r :: 0 <= r < |parts| ==>
        parts[r] <= Repr - {this, leader} && Owns(parts[r], replicas[r])
    }

    /** The replicas hold what the first k entries of the leader's log left. */
    ghost predicate UpTo(k: nat)
      reads this, Repr
    {
      && Valid() && k <= |leader.log|
      && forall r :: 0 <= r < |parts| ==>
        Owns(parts[r], replicas[r]) && SameHeld(replicas[r].Allocation(), Replay(map[], leader.log, k))
    }

    constructor (names: seq<Host>, answers: nat -> bool)
      requires Distinct(names)
      ensures InSync() && leader.log == [] && leader.answers == answers && fresh(Repr)
      ensures |replicas| == |names| && forall r :: 0 <= r < |names| ==> replicas[r].name == names[r]
    {
      var nodes;
      ghost var objects, all;
      nodes, objects, all := MakeReplicas(names);
      leader := new Cluster(map[], answers);
      replicas := nodes;
      parts := objects;
      new;
      Repr := {this, leader} + all;
      UpToIsSafe(0);
    }

    /** Replica i owns more than before. */
    ghost method Extend(i: nat, grown: set<object>)
      requires this in Repr && leader in Repr && leader.Valid() && leader.origin == map[]
      requires Separate(replicas, parts) && i < |parts|
      requires Owns(grown, replicas[i]) && this !in grown && leader !in grown
      requires forall j :: 0 <= j < |parts| && j != i ==>
        parts[j] <= Repr - {this, leader} && Owns(parts[j], replicas[j]) && parts[j] !! grown
      modifies this`parts, this`Repr
      ensures Valid() && parts == old(parts)[i := grown] && Repr == old(Repr) + grown
    {
      SeparateGrown(replicas, parts, i, grown);
      parts := parts[i := grown];
      Repr := Repr + grown;
    }

    /** One replica follows the entries; the others do not change. */
    method FollowAt(i: nat, entries: seq<RaftLog>)
      requires Valid() && i < |parts|
      modifies this, parts[i]
      ensures Valid() && |parts| == old(|parts|) && fresh(Repr - old(Repr))
      ensures replicas[i].Allocation() == Replay(old(replicas[i].Allocation()), entries, |entries|)
      ensures forall j :: 0 <= j < |parts| && j != i ==>
        parts[j] == old(parts[j]) && replicas[j].Allocation() == old(replicas[j].Allocation())
    {
      ghost var grown := FollowOne(replicas[i], entries, parts[i]);
      forall j | 0 <= j < |parts| && j != i
        ensures Owns(parts[j], replicas[j]) && parts[j] !! grown
        ensures replicas[j].Allocation() == old(replicas[j].Allocation())
      {
        assert old(Owns(parts[j], replicas[j])) && parts[j] !! parts[i];
      }
      Extend(i, grown);
    }

    /** All replicas follow the entries. */
    method FollowAll(entries: seq<RaftLog>)
      requires Valid()
      modifies Repr - {leader}
      ensures Valid() && fresh(Repr - old(Repr))
      ensures forall r :: 0 <= r < |parts| ==>
        replicas[r].Allocation() == Replay(old(replicas[r].Allocation()), entries, |entries|)
    {
      for i := 0 to |replicas|
        invariant Valid() && fresh(Repr - old(Repr))
        invariant forall j :: 0 <= j < i ==>
          replicas[j].Allocation() == Replay(old(replicas[j].Allocation()), entries, |entries|)
        invariant forall j :: i <= j < |replicas| ==>
          parts[j] == old(parts[j]) && replicas[j].Allocation() == old(replicas[j].Allocation())
      {
        FollowAt(i, entries);
      }
    }

    /** No config is run twice. */
    ghost predicate NoneTwice()
      reads this, Repr
    {
      Valid() && forall x, i, y, j, c ::
        0 <= x < |parts| && 0 <= y < |parts| && Runs(parts[x], replicas[x], i, c) && Runs(parts[y], replicas[y], j, c)
        ==> x == y && i == j
    }

    /** The listed configs are run, each by one handler of one replica, and no others are. */
    ghost predicate EachRunsOnce(configs: set<Config>)
      reads this, Repr
    {
      && NoneTwice()
      && (forall c :: c in configs ==> exists x, i :: 0 <= x < |parts| && Runs(parts[x], replicas[x], i, c))
      && (forall x, i, c :: 0 <= x < |parts| && Runs(parts[x], replicas[x], i, c) ==> c in configs)
    }

    /** Every replica followed the whole log, and no config is run twice. */
    ghost predicate InSync()
      reads this, Repr
    {
      Valid() && UpTo(|leader.log|) && NoneTwice()
    }

    lemma UpToIsSafe(k: nat)
      requires UpTo(k)
      ensures NoneTwice()
    {
      forall x, i, y, j, c |
        0 <= x < |parts| && 0 <= y < |parts| && Runs(parts[x], replicas[x], i, c) && Runs(parts[y], replicas[y], j, c)
        ensures x == y && i == j
      {
        ClusterSafety(leader, replicas, k, x, y, i, j);
      }
    }

    /** What a replica that followed the whole log runs is what the leader's store says. */
    lemma RunsWhatIsStored(x: nat)
      requires UpTo(|leader.log|) && x < |parts|
      ensures forall c :: c in Held(leader.store, replicas[x].name) <==> exists i :: Runs(parts[x], replicas[x], i, c)
    {
      leader.RuleFollowed();
      var r, objects := replicas[x], parts[x];
      assert Owns(objects, r) && SameHeld(r.Allocation(), leader.store);
      RunsWhatItHolds(objects, r);
      assert Held(r.Allocation(), r.name) == Held(leader.store, r.name);
    }

    /** Once a settled store reached all replicas, and every live host has one, each listed config runs once. */
    lemma SettledRuns(hosts: set<Host>, configs: set<Config>)
      requires InSync() && Settled(leader.store, hosts, configs) && HaveReplicas(hosts, replicas)
      ensures EachRunsOnce(configs)
    {
      forall c | c in configs ensures exists x, i :: 0 <= x < |parts| && Runs(parts[x], replicas[x], i, c) {
        var h :| h in hosts && c in Held(leader.store, h);
        var x :| 0 <= x < |replicas| && replicas[x].name == h;
        RunsWhatIsStored(x);
        var i :| Runs(parts[x], replicas[x], i, c);
      }
      forall x, i, c | 0 <= x < |parts| && Runs(parts[x], replicas[x], i, c) ensures c in configs {
        RunsWhatIsStored(x);
        assert c in Held(leader.store, replicas[x].name);
      }
    }

    /** The replicas apply the entries from the k-th to the m-th: at every prefix no config is run twice. */
    method CatchUp(k: nat, m: nat)
      requires UpTo(k) && k <= m <= |leader.log|
      modifies Repr - {leader}
      ensures UpTo(m) && NoneTwice() && fresh(Repr - old(Repr))
    {
      FollowAll(leader.log[k..m]);
      forall r | 0 <= r < |parts| ensures SameHeld(replicas[r].Allocation(), Replay(map[], leader.log, m)) {
        assert SameHeld(old(replicas[r].Allocation()), Replay(map[], leader.log, k));
        SlicesAgree(leader.log, k, m, old(replicas[r].Allocation()));
      }
      UpToIsSafe(m);
    }

    /** The leader runs a pass while the replicas stay where they are. */
    method Lead(hosts: seq<Host>, configs: Option<seq<Config>>) returns (ok: bool)
      requires UpTo(|leader.log|)
      requires Distinct(hosts) && (configs.Some? ==> Distinct(configs.value))
      modifies leader
      ensures UpTo(|old(leader.log)|) && old(leader.log) <= leader.log
      ensures hosts != [] && configs.Some? ==> leader.failures == old(leader.failures) + if ok then 0 else 1
      ensures hosts != [] && ok ==> configs.Some? && CompletedPass(Elements(configs.value), hosts, old(leader.store),
                                                                  |leader.log| - |old(leader.log)|, leader.store)
    {
      ghost var cleaned;
      ok, cleaned := leader.DistributeTasks(hosts, configs);
      ReplayPrefix(map[], old(leader.log), leader.log, |old(leader.log)|);
    }

    /**
     The leader runs a pass, completed or cut short, and the replicas follow what it logged: whatever
     happened, no config is run twice.
     */
    method RunPass(hosts: seq<Host>, configs: Option<seq<Config>>) returns (ok: bool)
      requires InSync() && Distinct(hosts) && (configs.Some? ==> Distinct(configs.value))
      modifies Repr
      ensures InSync() && fresh(Repr - old(Repr)) && old(leader.log) <= leader.log
      ensures hosts != [] && configs.Some? ==> leader.failures == old(leader.failures) + if ok then 0 else 1
      ensures hosts != [] && ok ==> configs.Some? && CompletedPass(Elements(configs.value), hosts, old(leader.store),
                                                                  |leader.log| - |old(leader.log)|, leader.store)
    {
      var done := |leader.log|;
      ok := Lead(hosts, configs);
      CatchUp(done, |leader.log|);
    }

    /** One round more. */
    method NextRound(hosts: seq<Host>, configs: seq<Config>, ghost rounds: nat, ghost inv: (nat, Alloc) -> bool)
      returns (ok: bool)
      requires InSync() && hosts != [] && Distinct(hosts) && Distinct(configs)
      requires Inductive(inv, Elements(configs), hosts) && inv(rounds, leader.store)
      modifies Repr
      ensures InSync() && fresh(Repr - old(Repr))
      ensures leader.failures == old(leader.failures) + if ok then 0 else 1
      ensures ok ==> inv(rounds + 1, leader.store)
    {
      ok := RunPass(hosts, Some(configs));
    }

    /** Rounds one after another, until one is cut short. */
    method RunRounds(hosts: seq<Host>, configs: seq<Config>, rounds: nat, ghost inv: (nat, Alloc) -> bool)
      returns (ok: bool)
      requires InSync() && hosts != [] && Distinct(hosts) && Distinct(configs)
      requires Inductive(inv, Elements(configs), hosts) && inv(0, leader.store)
      modifies Repr
      ensures InSync() && fresh(Repr - old(Repr))
      ensures leader.failures == old(leader.failures) + if ok then 0 else 1
      ensures ok ==> inv(rounds, leader.store)
    {
      ok := true;
      for round := 0 to rounds
        invariant ok && InSync() && inv(round, leader.store) && fresh(Repr - old(Repr))
        invariant leader.failures == old(leader.failures)
      {
        ok := NextRound(hosts, configs, round, inv);
        if !ok {
          return;
        }
      }
    }

    /**
     The whole system, from any store the leader's log can have left: after two rounds that complete
     each listed config is run by exactly one handler in the cluster and nothing else is run; after a
     number of rounds that only depends on the number of configs the load is level as well.  The run is
     cut short exactly by a command that raft refuses, with no config run twice; while raft refuses
     nothing it completes.
     */
    method Stabilise(hosts: seq<Host>, configs: seq<Config>, rounds: nat) returns (ok: bool)
      requires InSync() && hosts != [] && Distinct(hosts) && Distinct(configs)
      requires HaveReplicas(Elements(hosts), replicas)
      modifies Repr
      ensures InSync() && fresh(Repr - old(Repr))
      ensures leader.failures == old(leader.failures) + if ok then 0 else 1
      ensures (forall i {:trigger leader.answers(i)} :: leader.answers(i)) ==> ok
      ensures ok && rounds >= 2 ==> EachRunsOnce(Elements(configs))
      ensures Elements(hosts) != {}
      ensures ok && rounds >= Enough(Elements(configs)) ==>
        LevelStore(leader.store, Elements(hosts), Elements(configs))
    {
      RoundsAreInductive(Elements(configs), hosts, leader.store);
      leader.CountsRefusals();
      ok := RunRounds(hosts, configs, rounds, AfterRounds(Elements(configs), Elements(hosts)));
      leader.CountsRefusals();
      assert hosts[0] in Elements(hosts);
      if ok {
        RoundsSettle(Elements(configs), hosts, rounds, leader.store);
      }
      if ok && rounds >= 2 {
        SettledRuns(Elements(hosts), Elements(configs));
      }
    }
  }
}
