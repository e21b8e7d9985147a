/**
 What callers of the cache share: who fetches, who waits for whose fetch, and when an entry goes.
 */
module Sharing {
  import opened Wrappers
  import opened Cache

  // ----- a lookup that finds an entry never fetches

  /** Thread t waits for entry i, or returned what that entry carries. */
  predicate Shares(s: State, t: nat, key: Key, i: nat) {
    && t < |s.threads| && i < |s.items|
    && (s.threads[t] == Waiting(key, i)
        || (s.items[i].result.Some? && s.threads[t] == Returned(key, s.items[i].result.value)))
  }

  /** An outcome once set is never changed. */
  lemma ResultStays(s: State, a: Action, i: nat)
    requires Inv(s) && Enabled(s, a) && i < |s.items| && s.items[i].result.Some?
    ensures i < |Next(s, a).items| && Next(s, a).items[i].result == s.items[i].result
  {
    if !a.Spawn? { assert ThreadOk(s, a.t); }
  }

  /** Other threads leave a caller alone, and its own step is to return what the entry carries. */
  lemma CallerStep(s: State, a: Action, t: nat, key: Key, i: nat)
    requires Inv(s) && Enabled(s, a) && t < |s.threads| && i < |s.items|
    requires s.threads[t] == Waiting(key, i) || s.threads[t].Returned?
    ensures t < |Next(s, a).threads|
    ensures Next(s, a).threads[t] == s.threads[t]
      || (a.Await? && a.t == t && s.items[i].result.Some?
          && Next(s, a).threads[t] == Returned(key, s.items[i].result.value))
  {}

  lemma SharesStep(s: State, a: Action, t: nat, key: Key, i: nat)
    requires Inv(s) && Enabled(s, a) && Shares(s, t, key, i)
    ensures Shares(Next(s, a), t, key, i)
  {
    CallerStep(s, a, t, key, i);
    if s.items[i].result.Some? {
      ResultStays(s, a, i);
    }
    ItemsStay(s, a);
  }

  lemma ItemsStay(s: State, a: Action)
    requires Enabled(s, a)
    ensures |s.items| <= |Next(s, a).items|
  {}

  lemma {:induction false} SharesOnward(acts: seq<Action>, m: nat, n: nat, t: nat, key: Key, i: nat)
    requires m <= n <= |acts| && Possible(acts, n) && Possible(acts, m) && Shares(After(acts, m), t, key, i)
    ensures Shares(After(acts, n), t, key, i)
  {
    if m < n {
      SharesOnward(acts, m, n - 1, t, key, i);
      AlwaysInv(acts, n - 1);
      SharesStep(After(acts, n - 1), acts[n - 1], t, key, i);
    }
  }

  lemma {:induction false} PossibleEarlier(acts: seq<Action>, m: nat, n: nat)
    requires m <= n <= |acts| && Possible(acts, n)
    ensures Possible(acts, m)
  {
    if m < n {
      PossibleEarlier(acts, m, n - 1);
    }
  }

  lemma LookupFinds(s: State, t: nat)
    requires Inv(s) && Enabled(s, Lookup(t)) && s.threads[t].key in s.store
    ensures var key := s.threads[t].key;
      Shares(Next(s, Lookup(t)), t, key, s.store[key]) && Next(s, Lookup(t)).items == s.items
  {}

  lemma JustLookedUp(acts: seq<Action>, m: nat, t: nat, key: Key, i: nat)
    requires m < |acts| && Possible(acts, m + 1) && Possible(acts, m) && acts[m] == Lookup(t)
    requires t < |After(acts, m).threads| && After(acts, m).threads[t] == Calling(key)
    requires key in After(acts, m).store && After(acts, m).store[key] == i
    ensures Shares(After(acts, m + 1), t, key, i)
  {
    AlwaysInv(acts, m);
    LookupFinds(After(acts, m), t);
  }

  /**
   A caller whose lookup comes while an entry for its key is resident never fetches: from then on it
   waits for that entry, or has returned what that entry carries.
   */
  lemma LookupShares(acts: seq<Action>, m: nat, n: nat)
    requires m < n <= |acts| && Possible(acts, n) && Possible(acts, m) && acts[m].Lookup?
    requires acts[m].t < |After(acts, m).threads| && After(acts, m).threads[acts[m].t].Calling?
    requires After(acts, m).threads[acts[m].t].key in After(acts, m).store
    ensures var s := After(acts, m); var key := s.threads[acts[m].t].key;
      Shares(After(acts, n), acts[m].t, key, s.store[key])
  {
    var s, t := After(acts, m), acts[m].t;
    PossibleEarlier(acts, m + 1, n);
    JustLookedUp(acts, m, t, s.threads[t].key, s.store[s.threads[t].key]);
    SharesOnward(acts, m + 1, n, t, s.threads[t].key, s.store[s.threads[t].key]);
  }

  // ----- a caller that fetches gets what its own fetch returned

  /** The action makes a caller fetch for this key. */
  predicate StartsFetch(s: State, a: Action, key: Key) {
    Enabled(s, a) && a.Lookup? && s.threads[a.t].key == key && Next(s, a).threads[a.t].Fetching?
  }

  /** Thread t made entry i and is fetching or publishing its outcome, waits for it, or returned what it carries. */
  predicate Attends(s: State, t: nat, key: Key, i: nat) {
    && t < |s.threads| && i < |s.items| && s.items[i].owner == t
    && (s.threads[t] in {Fetching(key, i), Dropping(key, i), Closing(key, i)} || Shares(s, t, key, i))
  }

  lemma AttendsStep(s: State, a: Action, t: nat, key: Key, i: nat)
    requires Inv(s) && Enabled(s, a) && Attends(s, t, key, i)
    ensures Attends(Next(s, a), t, key, i)
    ensures a.FetchReturns? && a.t == t ==> Next(s, a).items[i].result == Some(a.outcome)
    ensures s.items[i].result.None? && Next(s, a).items[i].result.Some? ==> a.FetchReturns? && a.t == t
  {
    assert ThreadOk(s, t);
    if !a.Spawn? { assert ThreadOk(s, a.t); }
    if Shares(s, t, key, i) {
      SharesStep(s, a, t, key, i);
    }
  }

  lemma {:induction false} AttendsOnward(acts: seq<Action>, m: nat, n: nat, t: nat, key: Key, i: nat)
    requires m <= n <= |acts| && Possible(acts, n) && Possible(acts, m) && Attends(After(acts, m), t, key, i)
    ensures Attends(After(acts, n), t, key, i)
  {
    if m < n {
      AttendsOnward(acts, m, n - 1, t, key, i);
      AttendsOneMore(acts, n, t, key, i);
    }
  }

  lemma AttendsOneMore(acts: seq<Action>, n: nat, t: nat, key: Key, i: nat)
    requires 0 < n <= |acts| && Possible(acts, n) && Attends(After(acts, n - 1), t, key, i)
    ensures Attends(After(acts, n), t, key, i)
  {
    AlwaysInv(acts, n - 1);
    AttendsStep(After(acts, n - 1), acts[n - 1], t, key, i);
  }

  lemma FetchStarted(s: State, a: Action, key: Key)
    requires StartsFetch(s, a, key)
    ensures Attends(Next(s, a), a.t, key, |s.items|) && Next(s, a).store == s.store[key := |s.items|]
  {}

  /** A caller that fetches attends to its own new entry until it returns what that entry carries. */
  lemma FetcherGetsItsOwn(acts: seq<Action>, m: nat, n: nat, key: Key)
    requires m < n <= |acts| && Possible(acts, n) && Possible(acts, m) && StartsFetch(After(acts, m), acts[m], key)
    ensures Attends(After(acts, n), acts[m].t, key, |After(acts, m).items|)
  {
    PossibleEarlier(acts, m + 1, n);
    FetchStarted(After(acts, m), acts[m], key);
    AttendsOnward(acts, m + 1, n, acts[m].t, key, |After(acts, m).items|);
  }

  // ----- every fetch by a caller is paid for by a removal

  predicate Removes(s: State, a: Action, key: Key) {
    Enabled(s, a) && key in s.store && key !in Next(s, a).store
  }

  /** An entry goes when it is dropped after a failed fetch, deleted, or swept as stale; not otherwise. */
  lemma WhoRemoves(s: State, a: Action, key: Key)
    requires Enabled(s, a) && key in s.store
    ensures Removes(s, a, key) <==>
      || ((a.Drop? || a.Delete?) && s.threads[a.t].key == key)
      || (a.Sweep? && key in s.threads[a.t].stale)
  {}

  /** An entry that stays is replaced only by the background refresh for its key. */
  lemma WhoReplaces(s: State, a: Action, key: Key)
    requires Inv(s) && Enabled(s, a) && key in s.store && key in Next(s, a).store
    ensures Next(s, a).store[key] != s.store[key] ==> a.Install? && s.threads[a.t].key == key
    ensures a.Install? && s.threads[a.t].key == key ==>
      var i := Next(s, a).store[key];
      i == s.threads[a.t].item && i < |s.items| && s.items[i].result.Some? && s.items[i].result.value.Value?
  {
    if a.Install? { assert ThreadOk(s, a.t); }
  }

  function Fetches(acts: seq<Action>, n: nat, key: Key): nat
    requires n <= |acts| && Possible(acts, n)
  {
    if n == 0 then 0
    else Fetches(acts, n - 1, key) + if StartsFetch(After(acts, n - 1), acts[n - 1], key) then 1 else 0
  }

  function Removals(acts: seq<Action>, n: nat, key: Key): nat
    requires n <= |acts| && Possible(acts, n)
  {
    if n == 0 then 0
    else Removals(acts, n - 1, key) + if Removes(After(acts, n - 1), acts[n - 1], key) then 1 else 0
  }

  function Resident(s: State, key: Key): nat { if key in s.store then 1 else 0 }

  lemma FetchFindsNothing(s: State, a: Action, key: Key)
    requires Enabled(s, a)
    ensures StartsFetch(s, a, key) ==> Resident(s, key) == 0 && Resident(Next(s, a), key) == 1
    ensures !Removes(s, a, key) ==> Resident(s, key) <= Resident(Next(s, a), key)
    ensures Removes(s, a, key) ==> Resident(s, key) == 1 && Resident(Next(s, a), key) == 0
  {}

  /** Over a run callers fetch for a key at most once more than its entry was removed. */
  lemma {:induction false} FetchesAreFew(acts: seq<Action>, n: nat, key: Key)
    requires n <= |acts| && Possible(acts, n)
    ensures Fetches(acts, n, key) <= Removals(acts, n, key) + Resident(After(acts, n), key)
  {
    if n > 0 {
      FetchesAreFew(acts, n - 1, key);
      FetchFindsNothing(After(acts, n - 1), acts[n - 1], key);
    }
  }

  /** An entry that was there and is not there any more was removed in between. */
  lemma {:induction false} GoneWasRemoved(acts: seq<Action>, a: nat, b: nat, key: Key) returns (m: nat)
    requires a <= b <= |acts| && Possible(acts, b) && Possible(acts, a)
    requires key in After(acts, a).store && key !in After(acts, b).store
    ensures a <= m < b && Possible(acts, m) && Removes(After(acts, m), acts[m], key)
  {
    if key in After(acts, b - 1).store {
      m := b - 1;
    } else {
      m := GoneWasRemoved(acts, a, b - 1, key);
    }
  }

  /** Between two fetches by callers for one key its entry was removed. */
  lemma SecondFetch(acts: seq<Action>, a: nat, b: nat, key: Key) returns (m: nat)
    requires a < b < |acts| && Possible(acts, b + 1)
    requires Possible(acts, a) && Possible(acts, b)
    requires StartsFetch(After(acts, a), acts[a], key) && StartsFetch(After(acts, b), acts[b], key)
    ensures a < m < b && Possible(acts, m) && Removes(After(acts, m), acts[m], key)
  {
    PossibleEarlier(acts, a + 1, b);
    FetchFindsNothing(After(acts, a), acts[a], key);
    FetchFindsNothing(After(acts, b), acts[b], key);
    m := GoneWasRemoved(acts, a + 1, b, key);
  }

  lemma FetchingStep(s: State, a: Action, t: nat, key: Key)
    requires Enabled(s, a) && t < |Next(s, a).threads|
    requires Next(s, a).threads[t].Fetching? && Next(s, a).threads[t].key == key
    ensures (t < |s.threads| && s.threads[t] == Next(s, a).threads[t]) || (StartsFetch(s, a, key) && a.t == t)
  {}

  /** Who is fetching once started to. */
  lemma {:induction false} FetchingStarted(acts: seq<Action>, n: nat, t: nat, key: Key) returns (m: nat)
    requires n <= |acts| && Possible(acts, n) && t < |After(acts, n).threads|
    requires After(acts, n).threads[t].Fetching? && After(acts, n).threads[t].key == key
    ensures m < n && Possible(acts, m) && StartsFetch(After(acts, m), acts[m], key) && acts[m].t == t
  {
    if n > 0 {
      FetchingStep(After(acts, n - 1), acts[n - 1], t, key);
      if StartsFetch(After(acts, n - 1), acts[n - 1], key) && acts[n - 1].t == t {
        m := n - 1;
      } else {
        m := FetchingStarted(acts, n - 1, t, key);
      }
    }
  }

  /** Two callers that fetch for one key at the same time: the earlier entry was removed in between. */
  lemma TwoFetchers(acts: seq<Action>, n: nat, t: nat, u: nat, key: Key) returns (a: nat, m: nat, b: nat)
    requires n <= |acts| && Possible(acts, n) && t < |After(acts, n).threads| && u < |After(acts, n).threads| && t != u
    requires After(acts, n).threads[t].Fetching? && After(acts, n).threads[t].key == key
    requires After(acts, n).threads[u].Fetching? && After(acts, n).threads[u].key == key
    ensures a < m < b < n && Possible(acts, a) && Possible(acts, b) && Possible(acts, m)
    ensures StartsFetch(After(acts, a), acts[a], key) && StartsFetch(After(acts, b), acts[b], key)
    ensures {acts[a].t, acts[b].t} == {t, u} && Removes(After(acts, m), acts[m], key)
  {
    a := FetchingStarted(acts, n, t, key);
    b := FetchingStarted(acts, n, u, key);
    if b < a {
      a, b := b, a;
    }
    PossibleEarlier(acts, b + 1, n);
    m := SecondFetch(acts, a, b, key);
  }

  // ----- background refreshes

  /** The action returns an expired entry for this key. */
  predicate LooksExpired(s: State, a: Action, key: Key) {
    Enabled(s, a) && a.Await? && a.expired && s.threads[a.t].key == key
  }

  predicate Refreshes(s: State, a: Action, key: Key) {
    Enabled(s, a) && a.RefreshReturns? && s.threads[a.t].key == key
  }

  function ExpiredLooks(acts: seq<Action>, n: nat, key: Key): nat
    requires n <= |acts| && Possible(acts, n)
  {
    if n == 0 then 0
    else ExpiredLooks(acts, n - 1, key) + if LooksExpired(After(acts, n - 1), acts[n - 1], key) then 1 else 0
  }

  function Refreshed(acts: seq<Action>, n: nat, key: Key): nat
    requires n <= |acts| && Possible(acts, n)
  {
    if n == 0 then 0
    else Refreshed(acts, n - 1, key) + if Refreshes(After(acts, n - 1), acts[n - 1], key) then 1 else 0
  }

  function IsRefreshing(th: Thread, key: Key): nat { if th == Refreshing(key) then 1 else 0 }

  /** How many of the threads are refreshing this key. */
  function Pending(threads: seq<Thread>, key: Key): nat {
    if threads == [] then 0 else Pending(threads[..|threads| - 1], key) + IsRefreshing(threads[|threads| - 1], key)
  }

  lemma {:induction false} PendingUpdate(threads: seq<Thread>, t: nat, th: Thread, key: Key)
    requires t < |threads|
    ensures Pending(threads[t := th], key)
      == Pending(threads, key) - IsRefreshing(threads[t], key) + IsRefreshing(th, key)
  {
    var n := |threads| - 1;
    if t == n {
      assert threads[t := th][..n] == threads[..n];
    } else {
      assert threads[t := th][..n] == threads[..n][t := th];
      PendingUpdate(threads[..n], t, th, key);
    }
  }

  lemma PendingAppend(threads: seq<Thread>, th: Thread, key: Key)
    ensures Pending(threads + [th], key) == Pending(threads, key) + IsRefreshing(th, key)
  {
    assert (threads + [th])[..|threads|] == threads;
  }

  /** How the threads of a step's result come about: thread t becomes another, and perhaps one is new. */
  lemma ThreadsOfStep(s: State, a: Action)
    requires Enabled(s, a)
    ensures a.Spawn? ==> Next(s, a).threads == s.threads + [a.thread]
    ensures !a.Spawn? ==> |Next(s, a).threads| >= |s.threads| && var th := Next(s, a).threads[a.t];
      && !th.Refreshing?
      && Next(s, a).threads == s.threads[a.t := th] +
        if a.Await? && a.expired then [Refreshing(s.threads[a.t].key)] else []
    ensures !a.Spawn? ==> (s.threads[a.t].Refreshing? <==> a.RefreshReturns?)
  {}

  lemma PendingStep(s: State, a: Action, key: Key)
    requires Enabled(s, a)
    ensures Pending(Next(s, a).threads, key) ==
      Pending(s.threads, key) + (if LooksExpired(s, a, key) then 1 else 0) - (if Refreshes(s, a, key) then 1 else 0)
  {
    ThreadsOfStep(s, a);
    if a.Spawn? {
      PendingAppend(s.threads, a.thread, key);
    } else {
      var th := Next(s, a).threads[a.t];
      PendingUpdate(s.threads, a.t, th, key);
      if a.Await? && a.expired {
        PendingAppend(s.threads[a.t := th], Refreshing(s.threads[a.t].key), key);
      } else {
        assert s.threads[a.t := th] + [] == s.threads[a.t := th];
      }
    }
  }

  /** Every expired entry that is returned starts exactly one background refresh, and nothing else starts any. */
  lemma {:induction false} RefreshesAreCounted(acts: seq<Action>, n: nat, key: Key)
    requires n <= |acts| && Possible(acts, n)
    ensures ExpiredLooks(acts, n, key) == Refreshed(acts, n, key) + Pending(After(acts, n).threads, key)
  {
    if n == 0 {
      assert After(acts, 0).threads == [Scanning];
      PendingAppend([], Scanning, key);
      assert [] + [Scanning] == [Scanning];
    } else {
      RefreshesAreCounted(acts, n - 1, key);
      PendingStep(After(acts, n - 1), acts[n - 1], key);
    }
  }

  /** A refresh that returned a value makes it the resident entry for its key, ready at once. */
  lemma RefreshLands(s: State, t: nat, v: string)
    requires Enabled(s, RefreshReturns(t, Value(v)))
    ensures var key := s.threads[t].key; var one := Next(s, RefreshReturns(t, Value(v)));
      Enabled(one, Install(t)) && var two := Next(one, Install(t));
      && key in two.store && two.store[key] < |two.items| && two.items[two.store[key]].result == Some(Value(v))
      && Enabled(two, Publish(t)) && var three := Next(two, Publish(t));
      && three.store == two.store && three.items[three.store[key]].ready && three.threads[t] == Exited
  {}
}
