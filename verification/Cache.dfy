/**
 The TTL cache, whose callers share fetches in flight.

 Any number of threads interleave: callers of `get`, the background refreshes they start, callers
 of `Delete`, and the cleaner.  One action is what a thread does between two points where another
 may run: a critical section, a fetch returning, a channel being closed, a wait ending.  Whether an
 entry has expired is left open, so every timing is covered.
 */
module Cache {
  import opened Wrappers

  datatype Key = Key(name: string)
  datatype Outcome = Value(bytes: string) | Failure(error: string)
  /** One generation of an entry.  `owner` is the thread that made it; `ready` says its channel is closed. */
  datatype Item = Item(key: Key, owner: nat, result: Option<Outcome>, ready: bool)

  datatype Thread =
    // a caller of get
    | Calling(key: Key)
    | Fetching(key: Key, item: nat)
    | Dropping(key: Key, item: nat)
    | Closing(key: Key, item: nat)
    | Waiting(key: Key, item: nat)
    | Returned(key: Key, outcome: Outcome)
    // a background refresh
    | Refreshing(key: Key)
    | Installing(key: Key, item: nat)
    | Publishing(key: Key, item: nat)
    | Exited
    // a caller of Delete
    | Deleting(key: Key)
    // the cleaner
    | Scanning
    | Sweeping(stale: set<Key>)

  /** `fetched` records what every fetch returned, and for which key it ran. */
  datatype State = State(store: map<Key, nat>, items: seq<Item>, threads: seq<Thread>, fetched: set<(Key, Outcome)>)

  datatype Action =
    | Spawn(thread: Thread)
    | Lookup(t: nat)
    | FetchReturns(t: nat, outcome: Outcome)
    | Drop(t: nat)
    | Close(t: nat)
    | Await(t: nat, expired: bool)
    | RefreshReturns(t: nat, outcome: Outcome)
    | Install(t: nat)
    | Publish(t: nat)
    | Delete(t: nat)
    | Scan(t: nat, stale: set<Key>)
    | Sweep(t: nat)

  function Init(): State { State(map[], [], [Scanning], {}) }

  /** The item a thread refers to exists. */
  predicate RefOk(th: Thread, n: nat) {
    (th.Fetching? || th.Dropping? || th.Closing? || th.Waiting? || th.Installing? || th.Publishing?) ==> th.item < n
  }

  /** A thread waiting for an entry can go on once its channel is closed; every other step is never blocked. */
  predicate Enabled(s: State, a: Action) {
    match a
    case Spawn(th) => th.Calling? || th.Deleting?
    case _ => a.t < |s.threads| && RefOk(s.threads[a.t], |s.items|) && MayStep(s, a)
  }

  predicate MayStep(s: State, a: Action)
    requires !a.Spawn? && a.t < |s.threads| && RefOk(s.threads[a.t], |s.items|)
  {
    match a
    case Lookup(t) => s.threads[t].Calling?
    case FetchReturns(t, _) => s.threads[t].Fetching?
    case Drop(t) => s.threads[t].Dropping?
    case Close(t) => s.threads[t].Closing?
    case Await(t, _) =>
      s.threads[t].Waiting? && s.items[s.threads[t].item].ready && s.items[s.threads[t].item].result.Some?
    case RefreshReturns(t, _) => s.threads[t].Refreshing?
    case Install(t) => s.threads[t].Installing?
    case Publish(t) => s.threads[t].Publishing?
    case Delete(t) => s.threads[t].Deleting?
    case Scan(t, stale) => s.threads[t].Scanning? && stale <= s.store.Keys
    case Sweep(t) => s.threads[t].Sweeping?
  }

  function Become(s: State, t: nat, th: Thread): State
    requires t < |s.threads|
  {
    s.(threads := s.threads[t := th])
  }

  function WithReady(s: State, i: nat): State
    requires i < |s.items|
  {
    s.(items := s.items[i := s.items[i].(ready := true)])
  }

  function Next(s: State, a: Action): State
    requires Enabled(s, a)
  {
    match a
    case Spawn(th) => s.(threads := s.threads + [th])
    case Lookup(t) =>
      var k := s.threads[t].key;
      if k !in s.store then
        var i := |s.items|;
        Become(s.(items := s.items + [Item(k, t, None, false)], store := s.store[k := i]), t, Fetching(k, i))
      else Become(s, t, Waiting(k, s.store[k]))
    case FetchReturns(t, o) =>
      var k, i := s.threads[t].key, s.threads[t].item;
      Become(s.(items := s.items[i := s.items[i].(result := Some(o))], fetched := s.fetched + {(k, o)}), t,
             if o.Failure? then Dropping(k, i) else Closing(k, i))
    case Drop(t) =>
      var k, i := s.threads[t].key, s.threads[t].item;
      // whichever generation is resident by now
      Become(s.(store := s.store - {k}), t, Closing(k, i))
    case Close(t) =>
      var k, i := s.threads[t].key, s.threads[t].item;
      Become(WithReady(s, i), t, Waiting(k, i))
    case Await(t, expired) =>
      var k, i := s.threads[t].key, s.threads[t].item;
      var r := Become(s, t, Returned(k, s.items[i].result.value));
      if expired then r.(threads := r.threads + [Refreshing(k)]) else r
    case RefreshReturns(t, o) =>
      var k, i := s.threads[t].key, |s.items|;
      if o.Failure? then Become(s.(fetched := s.fetched + {(k, o)}), t, Exited)
      else Become(s.(items := s.items + [Item(k, t, Some(o), false)], fetched := s.fetched + {(k, o)}), t,
                  Installing(k, i))
    case Install(t) =>
      var k, i := s.threads[t].key, s.threads[t].item;
      Become(s.(store := s.store[k := i]), t, Publishing(k, i))
    case Publish(t) => Become(WithReady(s, s.threads[t].item), t, Exited)
    case Delete(t) => Become(s.(store := s.store - {s.threads[t].key}), t, Exited)
    case Scan(t, stale) => if stale == {} then s else Become(s, t, Sweeping(stale))
    case Sweep(t) => Become(s.(store := s.store - s.threads[t].stale), t, Scanning)
  }

  /** The thread still has to close the channel of item i. */
  predicate Owes(th: Thread, i: nat) {
    (th.Fetching? || th.Dropping? || th.Closing? || th.Installing? || th.Publishing?) && th.item == i
  }

  ghost predicate ItemOk(s: State, i: nat)
    requires i < |s.items|
  {
    var it := s.items[i];
    && (!it.ready ==> it.owner < |s.threads| && Owes(s.threads[it.owner], i))
    && (it.ready ==> it.result.Some?)
    && (it.result.Some? ==> (it.key, it.result.value) in s.fetched)
    && (!it.ready && it.result.None? ==> s.threads[it.owner].Fetching?)
    && (it.key in s.store && s.store[it.key] == i && it.result.Some? && it.result.value.Failure? ==>
        !it.ready && s.threads[it.owner].Dropping?)
  }

  ghost predicate ThreadOk(s: State, t: nat)
    requires t < |s.threads|
  {
    var th := s.threads[t];
    && RefOk(th, |s.items|)
    && (th.Fetching? || th.Dropping? || th.Closing? || th.Installing? || th.Publishing? ==>
        var it := s.items[th.item];
        it.key == th.key && it.owner == t && !it.ready && (it.result.None? <==> th.Fetching?)
        && (th.Installing? || th.Publishing? ==> it.result.value.Value?))
    && (th.Waiting? ==> s.items[th.item].key == th.key)
    && (th.Returned? ==> (th.key, th.outcome) in s.fetched)
  }

  ghost predicate Inv(s: State) {
    && (forall t :: 0 <= t < |s.threads| ==> ThreadOk(s, t))
    && (forall i :: 0 <= i < |s.items| ==> ItemOk(s, i))
    && (forall k :: k in s.store ==> s.store[k] < |s.items| && s.items[s.store[k]].key == k)
  }

  /** The steps that start threads or entries. */
  predicate Grows(a: Action) {
    a.Spawn? || a.Lookup? || a.Await? || a.RefreshReturns?
  }

  lemma OtherThreadGrown(s: State, a: Action, t: nat)
    requires Inv(s) && Enabled(s, a) && t < |s.threads| && (a.Spawn? || t != a.t) && Grows(a)
    ensures ThreadOk(Next(s, a), t)
  {
    assert ThreadOk(s, t);
    if !a.Spawn? { assert ThreadOk(s, a.t); }
  }

  lemma OtherThreadKept(s: State, a: Action, t: nat)
    requires Inv(s) && Enabled(s, a) && t < |s.threads| && (a.Spawn? || t != a.t)
    ensures ThreadOk(Next(s, a), t)
  {
    if Grows(a) {
      OtherThreadGrown(s, a, t);
    } else {
      assert ThreadOk(s, t) && ThreadOk(s, a.t);
    }
  }

  lemma NextKeepsThread(s: State, a: Action, t: nat)
    requires Inv(s) && Enabled(s, a) && t < |Next(s, a).threads|
    ensures ThreadOk(Next(s, a), t)
  {
    if !a.Spawn? { assert ThreadOk(s, a.t); }
    if t < |s.threads| && (a.Spawn? || t != a.t) {
      OtherThreadKept(s, a, t);
    } else if a.Await? {
      assert ItemOk(s, s.threads[a.t].item);
    }
  }

  lemma GrowthKeepsItem(s: State, a: Action, i: nat)
    requires Inv(s) && Enabled(s, a) && i < |Next(s, a).items| && Grows(a)
    ensures ItemOk(Next(s, a), i)
  {
    if !a.Spawn? { assert ThreadOk(s, a.t); }
    if i < |s.items| {
      assert ItemOk(s, i);
      if !s.items[i].ready { assert ThreadOk(s, s.items[i].owner); }
    }
  }

  lemma NextKeepsItem(s: State, a: Action, i: nat)
    requires Inv(s) && Enabled(s, a) && i < |Next(s, a).items|
    ensures ItemOk(Next(s, a), i)
  {
    if Grows(a) {
      GrowthKeepsItem(s, a, i);
    } else {
      assert ThreadOk(s, a.t);
      assert ItemOk(s, i);
      if !s.items[i].ready { assert ThreadOk(s, s.items[i].owner); }
    }
  }

  lemma NextKeepsInv(s: State, a: Action)
    requires Inv(s) && Enabled(s, a)
    ensures Inv(Next(s, a))
  {
    var r := Next(s, a);
    forall t | 0 <= t < |r.threads| ensures ThreadOk(r, t) { NextKeepsThread(s, a, t); }
    forall i | 0 <= i < |r.items| ensures ItemOk(r, i) { NextKeepsItem(s, a, i); }
    forall k | k in r.store ensures r.store[k] < |r.items| && r.items[r.store[k]].key == k {
      if !a.Spawn? { assert ThreadOk(s, a.t); }
      if k in s.store { assert s.store[k] < |s.items|; }
    }
  }

  // ----- runs

  /** The first k actions can be taken one after another from the empty cache. */
  predicate Possible(acts: seq<Action>, k: nat)
    requires k <= |acts|
    decreases k, 0
  {
    k == 0 || (Possible(acts, k - 1) && Enabled(After(acts, k - 1), acts[k - 1]))
  }

  function After(acts: seq<Action>, k: nat): State
    requires k <= |acts| && Possible(acts, k)
    decreases k, 1
  {
    if k == 0 then Init() else Next(After(acts, k - 1), acts[k - 1])
  }

  lemma {:induction false} AlwaysInv(acts: seq<Action>, k: nat)
    requires k <= |acts| && Possible(acts, k)
    ensures Inv(After(acts, k))
  {
    if k > 0 {
      AlwaysInv(acts, k - 1);
      NextKeepsInv(After(acts, k - 1), acts[k - 1]);
    }
  }

  /** In every interleaving an entry that is not ready has exactly one thread that will close it, a ready one none. */
  lemma OneThreadCloses(acts: seq<Action>, k: nat, i: nat)
    requires k <= |acts| && Possible(acts, k) && i < |After(acts, k).items|
    ensures var s := After(acts, k);
      && (!s.items[i].ready ==> exists t :: 0 <= t < |s.threads| && Owes(s.threads[t], i))
      && (forall t, u ::
          0 <= t < |s.threads| && 0 <= u < |s.threads| && Owes(s.threads[t], i) && Owes(s.threads[u], i) ==> t == u)
      && (s.items[i].ready ==> forall t :: 0 <= t < |s.threads| ==> !Owes(s.threads[t], i))
  {
    AlwaysInv(acts, k);
    var s := After(acts, k);
    assert ItemOk(s, i);
    forall t | 0 <= t < |s.threads| && Owes(s.threads[t], i) ensures t == s.items[i].owner && !s.items[i].ready {
      assert ThreadOk(s, t);
    }
  }

  /** The action closes the channel of item i. */
  predicate CloseOf(s: State, a: Action, i: nat) {
    (a.Close? || a.Publish?) && a.t < |s.threads| && Owes(s.threads[a.t], i)
  }

  function Closes(acts: seq<Action>, k: nat, i: nat): nat
    requires k <= |acts| && Possible(acts, k)
  {
    if k == 0 then 0
    else Closes(acts, k - 1, i) + (if CloseOf(After(acts, k - 1), acts[k - 1], i) then 1 else 0)
  }

  /** Over a whole run a channel is closed once if its entry is ready and never otherwise: no close can panic. */
  lemma {:induction false} ClosedOnce(acts: seq<Action>, k: nat, i: nat)
    requires k <= |acts| && Possible(acts, k)
    ensures var s := After(acts, k); Closes(acts, k, i) == if i < |s.items| && s.items[i].ready then 1 else 0
  {
    if k > 0 {
      ClosedOnce(acts, k - 1, i);
      AlwaysInv(acts, k - 1);
      var s, a := After(acts, k - 1), acts[k - 1];
      if !a.Spawn? { assert ThreadOk(s, a.t); }
    }
  }

  /** How many steps the thread is away from closing. */
  function Debt(th: Thread): nat {
    if th.Fetching? then 3 else if th.Dropping? || th.Installing? then 2
    else if th.Closing? || th.Publishing? then 1 else 0
  }

  /** How many of the actions from the j-th to the k-th are thread t's. */
  function Turns(acts: seq<Action>, t: nat, j: nat, k: nat): nat
    requires j <= k <= |acts|
  {
    if j == k then 0 else Turns(acts, t, j, k - 1) + (if TurnOf(acts[k - 1], t) then 1 else 0)
  }

  /** While item i is not ready, its owner has this many steps left. */
  function ItemDebt(s: State, i: nat): nat
    requires i < |s.items|
  {
    var it := s.items[i];
    if it.ready || it.owner >= |s.threads| then 0 else Debt(s.threads[it.owner])
  }

  predicate TurnOf(a: Action, t: nat) { !a.Spawn? && a.t == t }

  /** Item i stays ready and keeps its owner, and every step of the owner pays off. */
  ghost predicate PaysDebt(s: State, r: State, a: Action, i: nat)
    requires i < |s.items|
  {
    && i < |r.items| && r.items[i].owner == s.items[i].owner
    && (s.items[i].ready ==> r.items[i].ready)
    && (!r.items[i].ready ==> 1 <= ItemDebt(r, i) <= ItemDebt(s, i) <= 3)
    && (!r.items[i].ready && TurnOf(a, s.items[i].owner) ==> ItemDebt(r, i) < ItemDebt(s, i))
  }

  lemma GrowthPaysDebt(s: State, a: Action, i: nat)
    requires Inv(s) && Enabled(s, a) && i < |s.items| && Grows(a)
    ensures PaysDebt(s, Next(s, a), a, i)
  {
    assert ItemOk(s, i);
    if !s.items[i].ready { assert ThreadOk(s, s.items[i].owner); }
    if !a.Spawn? { assert ThreadOk(s, a.t); }
  }

  /** No step makes an entry unready or gives it another owner, and every step of the owner pays off. */
  lemma StepPaysDebt(s: State, a: Action, i: nat)
    requires Inv(s) && Enabled(s, a) && i < |s.items|
    ensures PaysDebt(s, Next(s, a), a, i)
  {
    if Grows(a) {
      GrowthPaysDebt(s, a, i);
    } else {
      assert ItemOk(s, i) && ThreadOk(s, a.t);
      if !s.items[i].ready { assert ThreadOk(s, s.items[i].owner); }
    }
  }

  /** From state s to state r item i kept its owner, who paid one for each of its turns if the item is not ready. */
  ghost predicate Paid(s: State, r: State, i: nat, turns: nat)
    requires i < |s.items|
  {
    && i < |r.items| && r.items[i].owner == s.items[i].owner
    && (s.items[i].ready ==> r.items[i].ready)
    && (!r.items[i].ready ==> turns + ItemDebt(r, i) <= ItemDebt(s, i))
    && (!r.items[i].ready && turns > 0 ==> ItemDebt(r, i) >= 1)
  }

  lemma PaidOnward(s: State, r: State, q: State, a: Action, i: nat, turns: nat)
    requires i < |s.items| && Paid(s, r, i, turns) && PaysDebt(r, q, a, i)
    ensures Paid(s, q, i, turns + if TurnOf(a, s.items[i].owner) then 1 else 0)
  {}

  /** One step more of a run in which item i is paid for. */
  lemma PaidStep(s: State, r: State, a: Action, i: nat, turns: nat)
    requires i < |s.items| && Paid(s, r, i, turns) && Inv(r) && Enabled(r, a)
    ensures Paid(s, Next(r, a), i, turns + if TurnOf(a, s.items[i].owner) then 1 else 0)
  {
    StepPaysDebt(r, a, i);
    PaidOnward(s, r, Next(r, a), a, i, turns);
  }

  lemma NothingPaid(s: State, i: nat)
    requires i < |s.items|
    ensures Paid(s, s, i, 0)
  {}

  lemma {:induction false} OwnerPays(acts: seq<Action>, j: nat, k: nat, i: nat, s: State)
    requires j <= k <= |acts| && Possible(acts, k) && Possible(acts, j) && s == After(acts, j) && i < |s.items|
    ensures Paid(s, After(acts, k), i, Turns(acts, s.items[i].owner, j, k))
  {
    if j < k {
      OwnerPays(acts, j, k - 1, i, s);
      AlwaysInv(acts, k - 1);
      var r, a, turns := After(acts, k - 1), acts[k - 1], Turns(acts, s.items[i].owner, j, k - 1);
      PaidStep(s, r, a, i, turns);
      assert After(acts, k) == Next(r, a);
      assert Turns(acts, s.items[i].owner, j, k) == turns + if TurnOf(a, s.items[i].owner) then 1 else 0;
    } else {
      NothingPaid(s, i);
    }
  }

  /**
   Nobody can keep the owner of an unfinished entry from closing it: while the entry is not ready,
   every turn the owner got has brought it closer, so after three turns the entry is ready.
   */
  lemma OwnerMakesReady(acts: seq<Action>, j: nat, k: nat, i: nat)
    requires j <= k <= |acts| && Possible(acts, k) && Possible(acts, j) && i < |After(acts, j).items|
    ensures i < |After(acts, k).items| && After(acts, k).items[i].owner == After(acts, j).items[i].owner
    ensures After(acts, j).items[i].ready ==> After(acts, k).items[i].ready
    ensures !After(acts, k).items[i].ready ==>
      Turns(acts, After(acts, j).items[i].owner, j, k) + ItemDebt(After(acts, k), i) <= ItemDebt(After(acts, j), i)
    ensures Turns(acts, After(acts, j).items[i].owner, j, k) >= 3 ==> After(acts, k).items[i].ready
  {
    OwnerPays(acts, j, k, i, After(acts, j));
  }

  /** The owner of an unfinished entry always has a step to take, and a waiter of a finished one too. */
  lemma NobodyIsStuck(acts: seq<Action>, k: nat, t: nat)
    requires k <= |acts| && Possible(acts, k)
    requires t < |After(acts, k).threads| && After(acts, k).threads[t].Waiting?
    ensures var s := After(acts, k); var i := s.threads[t].item;
      i < |s.items| && if s.items[i].ready then forall expired :: Enabled(s, Await(t, expired))
      else exists a: Action :: !a.Spawn? && a.t == s.items[i].owner && Enabled(s, a)
  {
    AlwaysInv(acts, k);
    var s := After(acts, k);
    assert ThreadOk(s, t);
    var i := s.threads[t].item;
    assert ItemOk(s, i);
    if !s.items[i].ready {
      var o := s.items[i].owner;
      assert ThreadOk(s, o);
      var a := match s.threads[o]
        case Fetching(_, _) => FetchReturns(o, Failure(""))
        case Dropping(_, _) => Drop(o)
        case Closing(_, _) => Close(o)
        case Installing(_, _) => Install(o)
        case _ => Publish(o);
      assert Enabled(s, a) && a.t == o;
    }
  }

  /** The action is a fetch for this key returning this outcome. */
  predicate FetchOf(s: State, a: Action, key: Key, o: Outcome) {
    && (a.FetchReturns? || a.RefreshReturns?) && a.outcome == o
    && a.t < |s.threads| && (s.threads[a.t].Fetching? || s.threads[a.t].Refreshing?) && s.threads[a.t].key == key
  }

  lemma {:induction false} FetchedByAction(acts: seq<Action>, k: nat, key: Key, o: Outcome) returns (j: nat)
    requires k <= |acts| && Possible(acts, k) && (key, o) in After(acts, k).fetched
    ensures j < k && Possible(acts, j) && FetchOf(After(acts, j), acts[j], key, o)
  {
    if (key, o) in After(acts, k - 1).fetched {
      j := FetchedByAction(acts, k - 1, key, o);
    } else {
      j := k - 1;
    }
  }

  /** Every get returns what some earlier fetch for the same key returned. */
  lemma GetsAgree(acts: seq<Action>, k: nat, t: nat)
    requires k <= |acts| && Possible(acts, k)
    requires t < |After(acts, k).threads| && After(acts, k).threads[t].Returned?
    ensures var th := After(acts, k).threads[t];
      exists j :: 0 <= j < k && Possible(acts, j) && FetchOf(After(acts, j), acts[j], th.key, th.outcome)
  {
    AlwaysInv(acts, k);
    assert ThreadOk(After(acts, k), t);
    var th := After(acts, k).threads[t];
    var j := FetchedByAction(acts, k, th.key, th.outcome);
  }

  /** Once an entry is ready, it carries an error only if it is no longer in the store. */
  lemma NoReadyErrorStays(acts: seq<Action>, k: nat, key: Key)
    requires k <= |acts| && Possible(acts, k) && key in After(acts, k).store
    ensures var s := After(acts, k); var i := s.store[key];
      && i < |s.items| && s.items[i].key == key
      && (s.items[i].ready ==> s.items[i].result.Some? && s.items[i].result.value.Value?)
  {
    AlwaysInv(acts, k);
    assert ItemOk(After(acts, k), After(acts, k).store[key]);
  }

  // ----- a failed refresh, left out of a run

  /** The same cache but for thread t, whose refresh is over in s and still to return in r, and for what was fetched. */
  ghost predicate SameBut(s: State, r: State, t: nat) {
    && s.store == r.store && s.items == r.items
    && t < |s.threads| == |r.threads| && s.threads[t] == Exited && r.threads[t].Refreshing?
    && forall u :: 0 <= u < |s.threads| && u != t ==> s.threads[u] == r.threads[u]
  }

  lemma SameButEnables(s: State, r: State, t: nat, a: Action)
    requires SameBut(s, r, t) && Enabled(s, a)
    ensures Enabled(r, a) && (!a.Spawn? ==> a.t != t && s.threads[a.t] == r.threads[a.t])
  {
    if !a.Spawn? {
      assert a.t != t;
    }
  }

  lemma SameButGrows(s: State, r: State, t: nat, a: Action)
    requires SameBut(s, r, t) && Enabled(s, a) && Enabled(r, a) && Grows(a)
    requires !a.Spawn? ==> a.t != t && s.threads[a.t] == r.threads[a.t]
    ensures SameBut(Next(s, a), Next(r, a), t)
  {}

  lemma SameButSteps(s: State, r: State, t: nat, a: Action)
    requires SameBut(s, r, t) && Enabled(s, a) && Enabled(r, a)
    requires !a.Spawn? ==> a.t != t && s.threads[a.t] == r.threads[a.t]
    ensures SameBut(Next(s, a), Next(r, a), t)
  {
    if Grows(a) {
      SameButGrows(s, r, t, a);
    }
  }

  lemma SameButStep(s: State, r: State, t: nat, a: Action)
    requires SameBut(s, r, t) && Enabled(s, a)
    ensures Enabled(r, a) && SameBut(Next(s, a), Next(r, a), t)
  {
    SameButEnables(s, r, t, a);
    SameButSteps(s, r, t, a);
  }

  lemma FailedRefresh(s: State, a: Action)
    requires Enabled(s, a) && a.RefreshReturns? && a.outcome.Failure?
    ensures SameBut(Next(s, a), s, a.t)
  {}

  function Without(acts: seq<Action>, j: nat): seq<Action>
    requires j < |acts|
  {
    acts[..j] + acts[j + 1..]
  }

  lemma {:induction false} SamePrefix(acts: seq<Action>, others: seq<Action>, k: nat)
    requires k <= |acts| && k <= |others| && Possible(acts, k) && forall i :: 0 <= i < k ==> acts[i] == others[i]
    ensures Possible(others, k) && After(others, k) == After(acts, k)
  {
    if k > 0 {
      SamePrefix(acts, others, k - 1);
    }
  }

  /** The same next action in both runs. */
  lemma SameButRuns(acts: seq<Action>, others: seq<Action>, k: nat, l: nat, t: nat)
    requires 0 < k <= |acts| && 0 < l <= |others| && others[l - 1] == acts[k - 1]
    requires Possible(acts, k) && Possible(others, l - 1) && SameBut(After(acts, k - 1), After(others, l - 1), t)
    ensures Possible(others, l) && SameBut(After(acts, k), After(others, l), t)
  {
    SameButStep(After(acts, k - 1), After(others, l - 1), t, acts[k - 1]);
  }

  lemma JustFailed(acts: seq<Action>, others: seq<Action>, j: nat)
    requires j < |acts| && j <= |others| && forall i :: 0 <= i < j ==> acts[i] == others[i]
    requires Possible(acts, j + 1) && acts[j].RefreshReturns? && acts[j].outcome.Failure?
    ensures Possible(others, j) && SameBut(After(acts, j + 1), After(others, j), acts[j].t)
  {
    SamePrefix(acts, others, j);
    FailedRefresh(After(acts, j), acts[j]);
  }

  /**
   A background refresh that fails changes nothing: leaving its return out of a run gives a run of
   the same other actions, at every point of which store, entries and all other threads are the same.
   */
  lemma {:induction false} FailedRefreshChangesNothing(acts: seq<Action>, j: nat, k: nat)
    requires j < k <= |acts| && Possible(acts, k) && acts[j].RefreshReturns? && acts[j].outcome.Failure?
    ensures Possible(Without(acts, j), k - 1)
    ensures SameBut(After(acts, k), After(Without(acts, j), k - 1), acts[j].t)
  {
    var rest := Without(acts, j);
    if k == j + 1 {
      JustFailed(acts, rest, j);
    } else {
      FailedRefreshChangesNothing(acts, j, k - 1);
      SameButRuns(acts, rest, k, k - 1, acts[j].t);
    }
  }
}
