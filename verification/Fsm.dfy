/**
 The replicated state machine of one node: its store of stop channels, and the task
 handlers it started.
 */
module Fsm {
  import opened Sums
  import opened Allocation
  import opened Wrappers

  /** A channel that carries no data and is only ever closed.  Closing it twice would panic. */
  class StopChannel {
    var closed: bool

    constructor ()
      ensures !closed
    {
      closed := false;
    }

    method Close()
      requires !closed
      modifies this
      ensures closed
    {
      closed := true;
    }
  }

  type Inner = map<Config, StopChannel>
  type Store = map<Host, Inner>

  function Inside(s: Store, h: Host): Inner {
    if h in s then s[h] else map[]
  }

  function With(s: Store, h: Host, c: Config, ch: StopChannel): Store {
    s[h := Inside(s, h)[c := ch]]
  }

  function Without(s: Store, h: Host, c: Config): Store {
    if h in s then s[h := s[h] - {c}] else s
  }

  ghost predicate Has(s: Store, h: Host, c: Config, older ch: StopChannel) {
    h in s && c in s[h] && s[h][c] == ch
  }

  ghost function AllocationOf(s: Store): Alloc {
    map h | h in s :: s[h].Keys
  }

  lemma WithEntries(s: Store, h: Host, c: Config, ch: StopChannel)
    ensures forall g, d, x: StopChannel ::
      Has(With(s, h, c, ch), g, d, x) <==> if g == h && d == c then x == ch else Has(s, g, d, x)
    ensures AllocationOf(With(s, h, c, ch)) == Put(AllocationOf(s), h, c)
  {
    assert With(s, h, c, ch)[h].Keys == Held(AllocationOf(s), h) + {c};
  }

  lemma WithInSteps(s: Store, h: Host, c: Config, ch: StopChannel)
    ensures h in s ==> s[h := s[h][c := ch]] == With(s, h, c, ch)
    ensures h !in s ==> s[h := map[]][h := map[c := ch]] == With(s, h, c, ch)
  {}

  lemma WithoutEntries(s: Store, h: Host, c: Config)
    ensures forall g, d, x: StopChannel :: Has(Without(s, h, c), g, d, x) <==> Has(s, g, d, x) && !(g == h && d == c)
    ensures AllocationOf(Without(s, h, c)) == Remove(AllocationOf(s), h, c)
  {}

  lemma DropEmpty(s: Store, h: Host)
    requires h in s && s[h] == map[]
    ensures forall g, d, x: StopChannel :: Has(s - {h}, g, d, x) <==> Has(s, g, d, x)
  {}

  /** What a snapshot restores before the hosts still to do. */
  ghost function RestoredBut(d: Dump, todo: set<Host>): Alloc {
    map h | h in d && h !in todo && d[h] != [] :: Elements(d[h])
  }

  lemma RestoredHost(d: Dump, todo: set<Host>, h: Host)
    requires h in todo && h in d
    ensures h !in RestoredBut(d, todo)
    ensures RestoredBut(d, todo - {h}) ==
      if d[h] == [] then RestoredBut(d, todo) else RestoredBut(d, todo)[h := Elements(d[h])]
  {}

  /** A host that was absent, with the first i of its configs. */
  ghost function WithFirst(a: Alloc, h: Host, configs: seq<Config>, i: nat): Alloc
    requires i <= |configs|
  {
    if i == 0 then a else a[h := Elements(configs[..i])]
  }

  lemma OneMoreConfig(a: Alloc, h: Host, configs: seq<Config>, i: nat)
    requires i < |configs| && h !in a
    ensures Allocation.Put(WithFirst(a, h, configs, i), h, configs[i]) == WithFirst(a, h, configs, i + 1)
  {
    assert configs[..i + 1] == configs[..i] + [configs[i]];
    assert Elements(configs[..i + 1]) == Elements(configs[..i]) + {configs[i]};
    assert i == 0 ==> Elements(configs[..i]) == {};
  }

  class FSMStore {
    var store: Store
    /** Every channel this store ever made, with the host and config it was made for. */
    ghost var made: map<StopChannel, (Host, Config)>

    /** A channel is open exactly while it is stored, and it is stored only where it was made for. */
    ghost predicate Valid()
      reads this, made.Keys
    {
      && (forall h, c, ch: StopChannel :: Has(store, h, c, ch) ==> ch in made && made[ch] == (h, c) && !ch.closed)
      && (forall ch :: ch in made && !ch.closed ==> Has(store, made[ch].0, made[ch].1, ch))
    }

    ghost function Allocation(): Alloc
      reads this
    {
      AllocationOf(store)
    }

    /** A channel made by this store is open exactly while it is stored, and then in one place only. */
    lemma OpenWhileStored(ch: StopChannel)
      requires Valid() && ch in made
      ensures !ch.closed <==> exists h, c :: Has(store, h, c, ch)
      ensures forall g, c, h, d :: Has(store, g, c, ch) && Has(store, h, d, ch) ==> g == h && c == d
    {
      if !ch.closed {
        assert Has(store, made[ch].0, made[ch].1, ch);
      }
    }

    constructor ()
      ensures Valid() && store == map[] && made == map[]
    {
      store := map[];
      made := map[];
    }

    method List(host: Host) returns (configs: seq<Config>)
      requires Valid()
      ensures Listing(configs, Held(Allocation(), host))
    {
      if host in store {
        configs := Keys(store[host]);
      } else {
        configs := [];
      }
    }

    /** As `Valid`, but for what is stored for this config of this host: its channel may be closed. */
    ghost predicate ValidBut(host: Host, config: Config)
      reads this, made.Keys
    {
      && (forall h, c, ch: StopChannel :: Has(store, h, c, ch) ==>
          ch in made && made[ch] == (h, c) && ((h, c) != (host, config) ==> !ch.closed))
      && (forall ch :: ch in made && !ch.closed ==>
          Has(store, made[ch].0, made[ch].1, ch) && made[ch] != (host, config))
    }

    /** Stops the client started before, if any. */
    method Stop(host: Host, config: Config)
      requires Valid()
      modifies made.Keys
      ensures ValidBut(host, config)
      ensures forall ch :: ch in made ==> (ch.closed <==> old(ch.closed) || made[ch] == (host, config))
    {
      if host in store && config in store[host] {
        assert Has(store, host, config, store[host][config]);
        store[host][config].Close();
      }
    }

    /** Stores a new channel in place of a closed one or none. */
    method Record(host: Host, config: Config, stopCh: StopChannel)
      requires ValidBut(host, config) && stopCh !in made && !stopCh.closed
      modifies this
      ensures Valid()
      ensures made == old(made)[stopCh := (host, config)] && store == With(old(store), host, config, stopCh)
    {
      WithEntries(store, host, config, stopCh);
      WithInSteps(store, host, config, stopCh);
      if host !in store {
        store := store[host := map[]];
      }
      store := store[host := store[host][config := stopCh]];
      made := made[stopCh := (host, config)];
    }

    method Put(host: Host, config: Config) returns (stopCh: StopChannel)
      requires Valid()
      modifies this, made.Keys
      ensures Valid() && fresh(stopCh) && !stopCh.closed
      ensures made == old(made)[stopCh := (host, config)]
      ensures store == With(old(store), host, config, stopCh)
      ensures forall ch :: ch in old(made) ==> (ch.closed <==> old(ch.closed) || old(made)[ch] == (host, config))
    {
      Stop(host, config);
      stopCh := new StopChannel();
      Record(host, config, stopCh);
    }

    method Remove(host: Host, config: Config)
      requires Valid()
      modifies this, made.Keys
      ensures Valid() && made == old(made)
      ensures store == Without(old(store), host, config)
      ensures forall ch :: ch in made ==> (ch.closed <==> old(ch.closed) || made[ch] == (host, config))
    {
      if host in store {
        if config in store[host] {
          assert Has(store, host, config, store[host][config]);
          store[host][config].Close();
          store := store[host := store[host] - {config}];
        } else {
          assert store[host] - {config} == store[host];
          assert store[host := store[host]] == store;
        }
      }
      WithoutEntries(old(store), host, config);
    }

    method Dump() returns (dump: Dump)
      requires Valid()
      ensures IsDump(Allocation(), dump)
    {
      dump := map[];
      var hosts := store.Keys;
      while hosts != {}
        invariant hosts <= store.Keys && dump.Keys == store.Keys - hosts
        invariant forall h :: h in dump ==> Elements(dump[h]) == store[h].Keys && Distinct(dump[h])
      {
        var k :| k in hosts;
        var configs := Keys(store[k]);
        dump := dump[k := configs];
        hosts := hosts - {k};
      }
    }

    /** Stops everything and forgets it. */
    method Clean()
      requires Valid()
      modifies this, made.Keys
      ensures Valid() && store == map[] && made == old(made)
      ensures forall ch :: ch in made ==> ch.closed
    {
      while store != map[]
        invariant Valid() && made == old(made)
        decreases store.Keys
      {
        var k :| k in store;
        CleanHost(k);
        DropEmpty(store, k);
        store := store - {k};
      }
    }

    method CleanHost(k: Host)
      requires Valid() && k in store
      modifies this, made.Keys
      ensures Valid() && made == old(made)
      ensures k in store && store[k] == map[] && store.Keys == old(store).Keys
    {
      while store[k] != map[]
        invariant k in store && Valid() && made == old(made) && store.Keys == old(store).Keys
        decreases store[k].Keys
      {
        var cfg :| cfg in store[k];
        Remove(k, cfg);
      }
    }
  }

  /** The keys of a map, in the order an iteration happens to yield them. */
  method Keys(m: Inner) returns (configs: seq<Config>)
    ensures Listing(configs, m.Keys)
  {
    configs := Listed(m.Keys);
    WalkIsListing(configs, m.Keys);
  }

  /** A started `handleTask`: it dispatches its config until it sees its stop channel closed. */
  datatype Handler = Handler(config: Config, stop: StopChannel)

  /** The entry assigns or removes this config of this host. */
  predicate Touches(l: RaftLog, pair: (Host, Config)) {
    (IsAssign(l) || IsRelease(l)) && pair == (l.cmd.host, l.cmd.config)
  }

  /** One handler was started, for this config. */
  predicate Started(before: seq<Handler>, after: seq<Handler>, config: Config) {
    |after| == |before| + 1 && before <= after && after[|before|].config == config
  }

  class Replica {
    const name: Host
    const store: FSMStore
    var handlers: seq<Handler>

    /** Every channel made for this node has its own handler, and no handler listens to any other channel. */
    ghost predicate Valid()
      reads this, store, store.made.Keys
    {
      && store.Valid()
      && (forall i :: 0 <= i < |handlers| ==>
          handlers[i].stop in store.made && store.made[handlers[i].stop] == (name, handlers[i].config))
      && (forall i, j :: 0 <= i < j < |handlers| ==> handlers[i].stop != handlers[j].stop)
      && (forall ch :: ch in store.made && store.made[ch].0 == name ==> Handler(store.made[ch].1, ch) in handlers)
    }

    ghost function Allocation(): Alloc
      reads this, store
    {
      store.Allocation()
    }

    /** The handler still dispatches: `handleTask` polls the channel and leaves once it is closed. */
    ghost predicate Live(i: int)
      requires 0 <= i < |handlers|
      reads this, handlers[i].stop
    {
      !handlers[i].stop.closed
    }

    constructor (name: Host)
      ensures Valid() && this.name == name && handlers == []
      ensures store.store == map[] && store.made == map[] && fresh(store)
    {
      this.name := name;
      store := new FSMStore();
      handlers := [];
    }

    /** As `Valid`, but for this channel: nobody listens to it yet. */
    ghost predicate ValidBut(stopCh: StopChannel)
      reads this, store, store.made.Keys
    {
      && store.Valid()
      && (forall i :: 0 <= i < |handlers| ==>
          handlers[i].stop in store.made && store.made[handlers[i].stop] == (name, handlers[i].config)
          && handlers[i].stop != stopCh)
      && (forall i, j :: 0 <= i < j < |handlers| ==> handlers[i].stop != handlers[j].stop)
      && (forall ch :: ch in store.made && store.made[ch].0 == name && ch != stopCh ==>
          Handler(store.made[ch].1, ch) in handlers)
    }

    method Listen(host: Host, config: Config, stopCh: StopChannel)
      requires ValidBut(stopCh) && stopCh in store.made && store.made[stopCh] == (host, config)
      modifies this
      ensures Valid()
      ensures handlers == old(handlers) + if host == name then [Handler(config, stopCh)] else []
    {
      if host == name {
        handlers := handlers + [Handler(config, stopCh)];
      }
      assert forall x :: x in old(handlers) ==> x in handlers;
    }

    /** Put a config and start its handler if it is ours, as both Apply and Restore do. */
    method Adopt(host: Host, config: Config)
      requires Valid()
      modifies this, store, store.made.Keys
      ensures Valid() && fresh(store.made.Keys - old(store.made.Keys))
      ensures old(store.made.Keys) <= store.made.Keys && old(handlers) <= handlers
      ensures Allocation() == Put(old(Allocation()), host, config)
      ensures forall ch :: ch in old(store.made) ==>
        (ch.closed <==> old(ch.closed) || old(store.made)[ch] == (host, config))
      ensures host == name ==>
        && Started(old(handlers), handlers, config)
        && fresh(handlers[|old(handlers)|].stop) && Live(|old(handlers)|)
      ensures host != name ==> handlers == old(handlers)
    {
      var stopCh := store.Put(host, config);
      WithEntries(old(store.store), host, config, stopCh);
      Listen(host, config, stopCh);
    }

    /**
     An assignment to this node starts a handler, also for a config it already has: the one before is
     stopped.  Nothing else starts one, and no entry stops a handler of any other config or host.
     */
    method Apply(l: RaftLog)
      requires Valid()
      modifies this, store, store.made.Keys
      ensures Valid() && fresh(store.made.Keys - old(store.made.Keys))
      ensures old(store.made.Keys) <= store.made.Keys && old(handlers) <= handlers
      ensures Allocation() == Step(old(Allocation()), l)
      ensures forall ch :: ch in old(store.made) ==> (ch.closed <==> old(ch.closed) || Touches(l, old(store.made)[ch]))
      ensures IsAssign(l) && l.cmd.host == name ==>
        && Started(old(handlers), handlers, l.cmd.config)
        && fresh(handlers[|old(handlers)|].stop) && Live(|old(handlers)|)
      ensures !IsAssign(l) || l.cmd.host != name ==> handlers == old(handlers)
    {
      match l {
        case Undecodable =>
        case Encoded(cmd) =>
          if cmd.kind.AssignConfig? {
            Adopt(cmd.host, cmd.config);
          } else if cmd.kind.RemoveConfig? {
            WithoutEntries(store.store, cmd.host, cmd.config);
            store.Remove(cmd.host, cmd.config);
          }
      }
    }

    method Snapshot() returns (dump: Dump)
      requires Valid()
      ensures IsDump(Allocation(), dump)
    {
      dump := store.Dump();
    }

    /** `None` is a snapshot that cannot be decoded: it is refused before anything is touched. */
    method Restore(snapshot: Option<Dump>) returns (ok: bool)
      requires Valid()
      modifies this, store, store.made.Keys
      ensures Valid() && fresh(store.made.Keys - old(store.made.Keys))
      ensures old(store.made.Keys) <= store.made.Keys && old(handlers) <= handlers
      ensures ok == snapshot.Some?
      ensures Allocation() == if ok then Restored(snapshot.value) else old(Allocation())
      ensures ok ==> forall ch :: ch in old(store.made) ==> ch.closed
      ensures !ok ==> handlers == old(handlers) && forall ch :: ch in old(store.made) ==> ch.closed == old(ch.closed)
    {
      if snapshot.None? {
        return false;
      }
      var newStore := snapshot.value;
      store.Clean();
      var todo := newStore.Keys;
      while todo != {}
        invariant todo <= newStore.Keys && Valid() && fresh(store.made.Keys - old(store.made.Keys))
        invariant old(store.made.Keys) <= store.made.Keys && old(handlers) <= handlers
        invariant Allocation() == RestoredBut(newStore, todo)
        invariant forall ch :: ch in old(store.made) ==> ch.closed
      {
        var host :| host in todo;
        RestoredHost(newStore, todo, host);
        RestoreHost(host, newStore[host]);
        todo := todo - {host};
      }
      return true;
    }

    method RestoreHost(host: Host, configs: seq<Config>)
      requires Valid() && host !in Allocation()
      modifies this, store, store.made.Keys
      ensures Valid() && fresh(store.made.Keys - old(store.made.Keys))
      ensures old(store.made.Keys) <= store.made.Keys && old(handlers) <= handlers
      ensures Allocation() == if configs == [] then old(Allocation()) else old(Allocation())[host := Elements(configs)]
      ensures forall ch :: ch in old(store.made) && old(ch.closed) ==> ch.closed
    {
      ghost var before := Allocation();
      for i := 0 to |configs|
        invariant Valid() && fresh(store.made.Keys - old(store.made.Keys))
        invariant old(store.made.Keys) <= store.made.Keys && old(handlers) <= handlers
        invariant Allocation() == WithFirst(before, host, configs, i)
        invariant forall ch :: ch in old(store.made) && old(ch.closed) ==> ch.closed
      {
        OneMoreConfig(before, host, configs, i);
        Adopt(host, configs[i]);
      }
      assert configs[..|configs|] == configs;
    }

    /** Applies the entries of a log in order. */
    method Follow(log: seq<RaftLog>)
      requires Valid()
      modifies this, store, store.made.Keys
      ensures Valid() && fresh(store.made.Keys - old(store.made.Keys))
      ensures old(store.made.Keys) <= store.made.Keys && old(handlers) <= handlers
      ensures Allocation() == Replay(old(Allocation()), log, |log|)
    {
      ghost var before := Allocation();
      for i := 0 to |log|
        invariant Valid() && fresh(store.made.Keys - old(store.made.Keys))
        invariant old(store.made.Keys) <= store.made.Keys && old(handlers) <= handlers
        invariant Allocation() == Replay(before, log, i)
      {
        Apply(log[i]);
      }
    }

    /**
     A node that starts from a snapshot and follows the rest of the log ends up with the pairs, and
     runs the tasks, of a node that followed the whole log.
     */
    method Recover(snapshot: Dump, rest: seq<RaftLog>, ghost log: seq<RaftLog>, ghost cut: nat)
      requires Valid() && cut <= |log| && rest == log[cut..] && IsDump(Replay(map[], log, cut), snapshot)
      modifies this, store, store.made.Keys
      ensures Valid() && fresh(store.made.Keys - old(store.made.Keys))
      ensures old(store.made.Keys) <= store.made.Keys && old(handlers) <= handlers
      ensures SameHeld(Allocation(), Replay(map[], log, |log|))
      ensures LiveConfigs() == Held(Replay(map[], log, |log|), name)
    {
      var ok := Restore(Some(snapshot));
      Follow(rest);
      SnapshotIsTransparent(map[], log, cut, snapshot);
      LiveIsHeld();
      assert Held(Allocation(), name) == Held(Replay(map[], log, |log|), name);
    }

    /** Handlers that still run correspond one-to-one to the configs stored for this node. */
    lemma HandlersMatchStore()
      requires Valid()
      ensures forall c :: c in Held(Allocation(), name) ==>
        exists i ::
          0 <= i < |handlers| && Live(i) && handlers[i].config == c && Has(store.store, name, c, handlers[i].stop)
      ensures forall i :: 0 <= i < |handlers| && Live(i) ==> handlers[i].config in Held(Allocation(), name)
      ensures forall i, j :: 0 <= i < |handlers| && 0 <= j < |handlers| && Live(i) && Live(j) ==>
        handlers[i].config == handlers[j].config ==> i == j
    {
      forall c | c in Held(Allocation(), name)
        ensures exists i ::
          0 <= i < |handlers| && Live(i) && handlers[i].config == c && Has(store.store, name, c, handlers[i].stop)
      {
        var ch := store.store[name][c];
        assert Has(store.store, name, c, ch);
        assert Handler(store.made[ch].1, ch) in handlers;
        var i :| 0 <= i < |handlers| && handlers[i] == Handler(c, ch);
        assert Live(i);
      }
    }

    ghost function LiveConfigs(): set<Config>
      reads this, store, store.made.Keys
      requires Valid()
    {
      set i | 0 <= i < |handlers| && Live(i) :: handlers[i].config
    }

    lemma LiveIsHeld()
      requires Valid()
      ensures LiveConfigs() == Held(Allocation(), name)
    {
      HandlersMatchStore();
    }
  }

  /** However two nodes of one name got there, equal allocations mean the same tasks run. */
  lemma SameTasksRun(x: Replica, y: Replica)
    requires x.Valid() && y.Valid() && x.name == y.name
    requires SameHeld(x.Allocation(), y.Allocation())
    ensures x.LiveConfigs() == y.LiveConfigs()
  {
    x.LiveIsHeld();
    y.LiveIsHeld();
    assert Held(x.Allocation(), x.name) == Held(y.Allocation(), y.name);
  }

  /**
   Replicas that agree with one prefix of a safe log, each under its own name, run at most one
   handler per config between them.
   */
  lemma AtMostOneHandlerPerConfig(replicas: seq<Replica>, log: seq<RaftLog>, k: nat, x: int, y: int, i: int, j: int)
    requires k <= |log| && SafeFrom(map[], log, |log|)
    requires forall r :: 0 <= r < |replicas| ==>
      replicas[r].Valid() && SameHeld(replicas[r].Allocation(), Replay(map[], log, k))
    requires forall r, s :: 0 <= r < s < |replicas| ==> replicas[r].name != replicas[s].name
    requires 0 <= x < |replicas| && 0 <= i < |replicas[x].handlers| && replicas[x].Live(i)
    requires 0 <= y < |replicas| && 0 <= j < |replicas[y].handlers| && replicas[y].Live(j)
    requires replicas[x].handlers[i].config == replicas[y].handlers[j].config
    ensures x == y && i == j
  {
    var a := Replay(map[], log, k);
    SafeLogIsSingle(log, k);
    replicas[x].HandlersMatchStore();
    replicas[y].HandlersMatchStore();
    assert Held(replicas[x].Allocation(), replicas[x].name) == Held(a, replicas[x].name);
    assert Held(replicas[y].Allocation(), replicas[y].name) == Held(a, replicas[y].name);
    assert replicas[x].name == replicas[y].name;
  }
}
