/**
 How the worker collects the answers of its aggregation requests: one goroutine per request sends
 what it got over an unbuffered channel, a closer waits for all of them and closes the channel, and
 the worker itself drains the channel until it is closed.  Goroutines interleave freely.
 */
module Collecting {
  import opened Sums

  /** A request's goroutine.  After its call returned it sends if there is a result, then says it is done. */
  datatype Sender = Calling | Sending | Leaving(succeeded: bool) | Gone(succeeded: bool)

  datatype Main = Spawning | Draining | Finished
  datatype Closer = NotStarted | Waiting | Ended

  /** `wg` is the wait group's counter; `received` lists whose results were taken off the channel. */
  datatype State = State(total: nat, senders: seq<Sender>, main: Main, closer: Closer, wg: int, closed: bool,
                         received: seq<nat>)

  datatype Action =
    | Spawn
    | StartCloser
    | CallReturns(t: nat, succeeded: bool)
    /** The rendezvous of a sender with the draining worker. */
    | Deliver(t: nat)
    | SayDone(t: nat)
    | Close
    | SeeClosed

  function Init(total: nat): State {
    State(total, [], Spawning, NotStarted, 0, false, [])
  }

  predicate Enabled(s: State, a: Action) {
    match a
    case Spawn => s.main.Spawning? && |s.senders| < s.total
    case StartCloser => s.main.Spawning? && |s.senders| == s.total
    case CallReturns(t, _) => t < |s.senders| && s.senders[t].Calling?
    case Deliver(t) => t < |s.senders| && s.senders[t].Sending? && s.main.Draining?
    case SayDone(t) => t < |s.senders| && s.senders[t].Leaving?
    case Close => s.closer.Waiting? && s.wg == 0
    case SeeClosed => s.main.Draining? && s.closed
  }

  function With(s: State, t: nat, p: Sender): State
    requires t < |s.senders|
  {
    s.(senders := s.senders[t := p])
  }

  function Next(s: State, a: Action): State
    requires Enabled(s, a)
  {
    match a
    case Spawn => s.(senders := s.senders + [Calling], wg := s.wg + 1)
    case StartCloser => s.(main := Draining, closer := Waiting)
    case CallReturns(t, succeeded) => With(s, t, if succeeded then Sending else Leaving(false))
    case Deliver(t) => With(s, t, Leaving(true)).(received := s.received + [t])
    case SayDone(t) => With(s, t, Gone(s.senders[t].succeeded)).(wg := s.wg - 1)
    case Close => s.(closer := Ended, closed := true)
    case SeeClosed => s.(main := Finished)
  }

  predicate Delivered(p: Sender) {
    (p.Leaving? || p.Gone?) && p.succeeded
  }

  /** How many goroutines have not said they are done. */
  function Pending(senders: seq<Sender>, k: nat): nat
    requires k <= |senders|
  {
    if k == 0 then 0 else Pending(senders, k - 1) + if senders[k - 1].Gone? then 0 else 1
  }

  /** How many steps the goroutines still have to take. */
  function Work(senders: seq<Sender>, k: nat): nat
    requires k <= |senders|
  {
    if k == 0 then 0 else Work(senders, k - 1) + WorkOf(senders[k - 1])
  }

  function WorkOf(p: Sender): nat {
    match p
    case Calling => 3
    case Sending => 2
    case Leaving(_) => 1
    case Gone(_) => 0
  }

  ghost predicate Inv(s: State) {
    && s.wg == Pending(s.senders, |s.senders|)
    && |s.senders| <= s.total
    && (s.main.Spawning? <==> s.closer.NotStarted?)
    && (!s.main.Spawning? ==> |s.senders| == s.total)
    && (s.closed <==> s.closer.Ended?)
    && (s.closed ==> s.wg == 0)
    && (s.main.Finished? ==> s.closed)
    && Distinct(s.received)
    && (forall t :: t in s.received <==> 0 <= t < |s.senders| && Delivered(s.senders[t]))
  }

  lemma {:induction false} PendingChange(senders: seq<Sender>, t: nat, p: Sender, k: nat)
    requires t < |senders| && k <= |senders|
    ensures Pending(senders[t := p], k) == Pending(senders, k)
      + (if t < k && senders[t].Gone? && !p.Gone? then 1 else if t < k && !senders[t].Gone? && p.Gone? then -1 else 0)
  {
    if k > 0 {
      PendingChange(senders, t, p, k - 1);
    }
  }

  lemma {:induction false} WorkChange(senders: seq<Sender>, t: nat, p: Sender, k: nat)
    requires t < |senders| && k <= |senders|
    ensures Work(senders[t := p], k) == Work(senders, k) + if t < k then WorkOf(p) - WorkOf(senders[t]) else 0
  {
    if k > 0 {
      WorkChange(senders, t, p, k - 1);
    }
  }

  lemma {:induction false} MoreSenders(senders: seq<Sender>, p: Sender, k: nat)
    requires k <= |senders|
    ensures Pending(senders + [p], k) == Pending(senders, k) && Work(senders + [p], k) == Work(senders, k)
  {
    if k > 0 {
      MoreSenders(senders, p, k - 1);
    }
  }

  lemma {:induction false} SomePending(senders: seq<Sender>, k: nat)
    requires k <= |senders|
    ensures Pending(senders, k) == 0 <==> forall t :: 0 <= t < k ==> senders[t].Gone?
  {
    if k > 0 {
      SomePending(senders, k - 1);
    }
  }

  lemma NextKeepsInv(s: State, a: Action)
    requires Inv(s) && Enabled(s, a)
    ensures Inv(Next(s, a))
  {
    var n := |s.senders|;
    SomePending(s.senders, n);
    match a {
      case Spawn => MoreSenders(s.senders, Calling, n);
      case CallReturns(t, succeeded) => PendingChange(s.senders, t, if succeeded then Sending else Leaving(false), n);
      case Deliver(t) =>
        PendingChange(s.senders, t, Leaving(true), n);
        assert t !in s.received;
      case SayDone(t) => PendingChange(s.senders, t, Gone(s.senders[t].succeeded), n);
      case _ =>
    }
  }

  // ----- runs

  /** The first k actions can be taken one after another by a worker with so many requests. */
  predicate Possible(total: nat, run: seq<Action>, k: nat)
    requires k <= |run|
    decreases k, 0
  {
    k == 0 || (Possible(total, run, k - 1) && Enabled(After(total, run, k - 1), run[k - 1]))
  }

  function After(total: nat, run: seq<Action>, k: nat): State
    requires k <= |run| && Possible(total, run, k)
    decreases k, 1
  {
    if k == 0 then Init(total) else Next(After(total, run, k - 1), run[k - 1])
  }

  lemma {:induction false} RunKeepsInv(total: nat, run: seq<Action>, k: nat)
    requires k <= |run| && Possible(total, run, k)
    ensures Inv(After(total, run, k))
    ensures After(total, run, k).total == total
  {
    if k > 0 {
      RunKeepsInv(total, run, k - 1);
      NextKeepsInv(After(total, run, k - 1), run[k - 1]);
    }
  }

  /** Nobody ever sends on a closed channel, and nobody says done more often than was announced. */
  lemma NothingSentAfterClose(total: nat, run: seq<Action>, t: nat)
    requires Possible(total, run, |run|)
    ensures var s := After(total, run, |run|);
      && s.wg >= 0
      && (s.closed && t < |s.senders| ==> s.senders[t].Gone?)
  {
    RunKeepsInv(total, run, |run|);
    var s := After(total, run, |run|);
    SomePending(s.senders, |s.senders|);
  }

  /** The steps of a whole run that are still to come, at most. */
  function Remaining(s: State): int {
    4 * (s.total - |s.senders|) + Work(s.senders, |s.senders|)
    + (match s.main case Spawning => 3 case Draining => 1 case Finished => 0)
    + (if s.closer.Waiting? then 1 else 0)
  }

  lemma StepsRunOut(s: State, a: Action)
    requires Inv(s) && Enabled(s, a)
    ensures 0 <= Remaining(Next(s, a)) < Remaining(s)
  {
    var n := |s.senders|;
    match a {
      case Spawn => MoreSenders(s.senders, Calling, n);
      case CallReturns(t, succeeded) => WorkChange(s.senders, t, if succeeded then Sending else Leaving(false), n);
      case Deliver(t) => WorkChange(s.senders, t, Leaving(true), n);
      case SayDone(t) => WorkChange(s.senders, t, Gone(s.senders[t].succeeded), n);
      case _ =>
    }
  }

  /** However the goroutines interleave, a run takes at most 4 steps per request and 3 more. */
  lemma {:induction false} RunsAreShort(total: nat, run: seq<Action>, k: nat)
    requires k <= |run| && Possible(total, run, k)
    ensures 0 <= Remaining(After(total, run, k)) <= 4 * total + 3 - k
  {
    if k > 0 {
      RunsAreShort(total, run, k - 1);
      RunKeepsInv(total, run, k - 1);
      StepsRunOut(After(total, run, k - 1), run[k - 1]);
    }
  }

  /** Unless the worker is finished, someone can go on: if only by having a call return. */
  lemma NobodyIsStuck(total: nat, run: seq<Action>)
    requires Possible(total, run, |run|)
    ensures var s := After(total, run, |run|);
      s.main.Finished? || exists a :: Enabled(s, a)
  {
    RunKeepsInv(total, run, |run|);
    var s := After(total, run, |run|);
    SomePending(s.senders, |s.senders|);
    if s.main.Spawning? {
      assert Enabled(s, if |s.senders| < s.total then Spawn else StartCloser);
    } else if s.main.Draining? {
      if s.wg == 0 {
        assert Enabled(s, if s.closed then SeeClosed else Close);
      } else {
        var t :| 0 <= t < |s.senders| && !s.senders[t].Gone?;
        assert Enabled(s, match s.senders[t]
          case Calling => CallReturns(t, true)
          case Sending => Deliver(t)
          case _ => SayDone(t));
      }
    }
  }

  /** A run that finished received exactly one result from every request that succeeded, and no other. */
  lemma OneResultPerSuccess(total: nat, run: seq<Action>, t: nat)
    requires Possible(total, run, |run|)
    requires After(total, run, |run|).main.Finished? && t < total
    ensures var s := After(total, run, |run|);
      && t < |s.senders| && s.senders[t].Gone?
      && multiset(s.received)[t] == if s.senders[t].succeeded then 1 else 0
  {
    RunKeepsInv(total, run, |run|);
    var s := After(total, run, |run|);
    SomePending(s.senders, |s.senders|);
    CountInDistinct(s.received, t);
  }

  lemma {:induction false} CountInDistinct(xs: seq<nat>, x: nat)
    requires Distinct(xs)
    ensures multiset(xs)[x] == if x in xs then 1 else 0
  {
    if xs != [] {
      CountInDistinct(xs[1..], x);
      assert xs == [xs[0]] + xs[1..];
    }
  }

  /** The goroutine knows that its call succeeded, or that it failed. */
  predicate Knows(p: Sender, succeeded: bool) {
    match p
    case Calling => false
    case Sending => succeeded
    case Leaving(outcome) => outcome == succeeded
    case Gone(outcome) => outcome == succeeded
  }

  lemma NextKeepsOutcome(s: State, a: Action, t: nat, succeeded: bool)
    requires Enabled(s, a) && t < |s.senders| && Knows(s.senders[t], succeeded)
    ensures t < |Next(s, a).senders| && Knows(Next(s, a).senders[t], succeeded)
  {}

  /** What a request's call returned is what its goroutine counts as from then on. */
  lemma {:induction false} OutcomeStays(total: nat, run: seq<Action>, t: nat, j: nat, k: nat)
    requires j < k <= |run| && Possible(total, run, k) && run[j].CallReturns? && run[j].t == t
    ensures var s := After(total, run, k);
      t < |s.senders| && Knows(s.senders[t], run[j].succeeded)
  {
    if j < k - 1 {
      OutcomeStays(total, run, t, j, k - 1);
      NextKeepsOutcome(After(total, run, k - 1), run[k - 1], t, run[j].succeeded);
    }
  }
}
