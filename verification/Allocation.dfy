/**
 What the replicated log means: which host holds which configs after a sequence of commands.
 A host may be present with no configs, as in the store it describes.
 */
module Allocation {
  import opened Sums

  datatype Host = HostName(name: string)
  datatype Config = ConfigName(name: string)
  type Alloc = map<Host, set<Config>>

  /** The command types the state machine knows, and any other string. */
  datatype CommandType = AssignConfig | RemoveConfig | UnknownType(name: string)

  datatype FSMCommand = FSMCommand(kind: CommandType, host: Host, config: Config)

  /** A raft log entry, as the state machine sees it once it tried to decode the JSON. */
  datatype RaftLog = Undecodable | Encoded(cmd: FSMCommand)

  function AssignCmd(h: Host, c: Config): RaftLog { Encoded(FSMCommand(AssignConfig, h, c)) }
  function ReleaseCmd(h: Host, c: Config): RaftLog { Encoded(FSMCommand(RemoveConfig, h, c)) }

  function Held(a: Alloc, h: Host): set<Config> {
    if h in a then a[h] else {}
  }

  function Put(a: Alloc, h: Host, c: Config): Alloc {
    a[h := Held(a, h) + {c}]
  }

  function Remove(a: Alloc, h: Host, c: Config): Alloc {
    if h in a then a[h := a[h] - {c}] else a
  }

  /** Host h gives up the configs s, one command each. */
  function Minus(a: Alloc, h: Host, s: set<Config>): Alloc {
    if h in a then a[h := a[h] - s] else a
  }

  /** Host h receives the configs s, one command each. */
  function Plus(a: Alloc, h: Host, s: set<Config>): Alloc {
    if s == {} then a else a[h := Held(a, h) + s]
  }

  lemma MinusOneMore(a: Alloc, h: Host, s: set<Config>, c: Config)
    ensures Minus(a, h, {}) == a
    ensures Step(Minus(a, h, s), ReleaseCmd(h, c)) == Minus(a, h, s + {c})
  {
    if h in a {
      assert a[h] - s - {c} == a[h] - (s + {c});
      assert a[h] - {} == a[h];
    }
  }

  lemma PlusOneMore(a: Alloc, h: Host, s: set<Config>, c: Config)
    ensures Step(Plus(a, h, s), AssignCmd(h, c)) == Plus(a, h, s + {c})
  {
    assert Held(a, h) + s + {c} == Held(a, h) + (s + {c});
    assert s == {} ==> s + {c} == {c};
  }

  predicate IsAssign(e: RaftLog) { e.Encoded? && e.cmd.kind.AssignConfig? }
  predicate IsRelease(e: RaftLog) { e.Encoded? && e.cmd.kind.RemoveConfig? }

  /** Commands of an unknown kind and undecodable entries change nothing. */
  function Step(a: Alloc, e: RaftLog): Alloc {
    if IsAssign(e) then Put(a, e.cmd.host, e.cmd.config)
    else if IsRelease(e) then Remove(a, e.cmd.host, e.cmd.config)
    else a
  }

  /** What a store holding `a` holds after the first k entries of a log. */
  function Replay(a: Alloc, log: seq<RaftLog>, k: nat): Alloc
    requires k <= |log|
  {
    if k == 0 then a else Step(Replay(a, log, k - 1), log[k - 1])
  }

  lemma {:induction false} ReplayPrefix(a: Alloc, x: seq<RaftLog>, y: seq<RaftLog>, k: nat)
    requires k <= |x| && x <= y
    ensures Replay(a, x, k) == Replay(a, y, k)
  {
    if k > 0 {
      ReplayPrefix(a, x, y, k - 1);
    }
  }

  /** Replaying the rest of a log from where a prefix of it led. */
  lemma {:induction false} ReplayRest(a: Alloc, log: seq<RaftLog>, cut: nat, k: nat)
    requires cut + k <= |log|
    ensures Replay(Replay(a, log, cut), log[cut..], k) == Replay(a, log, cut + k)
  {
    if k > 0 {
      ReplayRest(a, log, cut, k - 1);
    }
  }

  // ----- assignments that never share a config

  ghost predicate Unheld(a: Alloc, c: Config) {
    forall h: Host :: c !in Held(a, h)
  }

  /** An assignment takes effect on a config nobody holds. */
  ghost predicate SafeStep(a: Alloc, e: RaftLog) {
    IsAssign(e) ==> Unheld(a, e.cmd.config)
  }

  ghost predicate SafeFrom(a: Alloc, log: seq<RaftLog>, k: nat)
    requires k <= |log|
  {
    k == 0 || (SafeFrom(a, log, k - 1) && SafeStep(Replay(a, log, k - 1), log[k - 1]))
  }

  ghost predicate Single(a: Alloc) {
    forall g: Host, h: Host :: g != h ==> Held(a, g) !! Held(a, h)
  }

  lemma {:induction false} SafePrefix(a: Alloc, x: seq<RaftLog>, y: seq<RaftLog>, k: nat)
    requires k <= |x| && x <= y && SafeFrom(a, x, k)
    ensures SafeFrom(a, y, k)
  {
    if k > 0 {
      SafePrefix(a, x, y, k - 1);
      ReplayPrefix(a, x, y, k - 1);
    }
  }

  lemma {:induction false} SafeEarlier(a: Alloc, log: seq<RaftLog>, j: nat, k: nat)
    requires j <= k <= |log| && SafeFrom(a, log, k)
    ensures SafeFrom(a, log, j)
  {
    if j < k {
      SafeEarlier(a, log, j, k - 1);
    }
  }

  lemma SafeAppend(a: Alloc, log: seq<RaftLog>, e: RaftLog)
    requires SafeFrom(a, log, |log|) && SafeStep(Replay(a, log, |log|), e)
    ensures SafeFrom(a, log + [e], |log| + 1)
    ensures Replay(a, log + [e], |log| + 1) == Step(Replay(a, log, |log|), e)
  {
    SafePrefix(a, log, log + [e], |log|);
    ReplayPrefix(a, log, log + [e], |log|);
  }

  /** Along a safe log two hosts share a config only if they shared it all along. */
  lemma {:induction false} SafeLogNeverShares(a: Alloc, log: seq<RaftLog>, j: nat, k: nat, g: Host, h: Host, c: Config)
    requires j <= k <= |log| && SafeFrom(a, log, k) && g != h
    requires c in Held(Replay(a, log, k), g) && c in Held(Replay(a, log, k), h)
    ensures c in Held(Replay(a, log, j), g) && c in Held(Replay(a, log, j), h)
  {
    if j < k {
      var before := Replay(a, log, k - 1);
      assert c in Held(before, g) && c in Held(before, h) by {
        assert c in Held(before, g) || c in Held(before, h);
      }
      SafeLogNeverShares(a, log, j, k - 1, g, h, c);
    }
  }

  /** From an empty store, a safe log never lets two hosts hold one config, at any prefix. */
  lemma SafeLogIsSingle(log: seq<RaftLog>, k: nat)
    requires k <= |log| && SafeFrom(map[], log, |log|)
    ensures Single(Replay(map[], log, k))
  {
    SafeEarlier(map[], log, k, |log|);
    forall g: Host, h: Host, c: Config | c in Held(Replay(map[], log, k), g) && c in Held(Replay(map[], log, k), h)
      ensures g == h
    {
      if g != h {
        SafeLogNeverShares(map[], log, 0, k, g, h, c);
      }
    }
  }

  // ----- snapshots

  /** The decoded form of a snapshot: the configs of each host, listed in some order. */
  type Dump = map<Host, seq<Config>>

  ghost predicate IsDump(a: Alloc, d: Dump) {
    && d.Keys == a.Keys
    && forall h :: h in d ==> Elements(d[h]) == a[h] && Distinct(d[h])
  }

  /** What a store holds once a snapshot was restored into it: hosts without configs disappear. */
  ghost function Restored(d: Dump): Alloc {
    map h | h in d && d[h] != [] :: Elements(d[h])
  }

  ghost predicate SameHeld(a: Alloc, b: Alloc) {
    forall h: Host :: Held(a, h) == Held(b, h)
  }

  lemma DumpRestores(a: Alloc, d: Dump)
    requires IsDump(a, d)
    ensures SameHeld(Restored(d), a)
  {
    forall h: Host ensures Held(Restored(d), h) == Held(a, h) {
      if h in d && d[h] != [] {
        assert d[h][0] in Elements(d[h]);
      }
    }
  }

  lemma {:induction false} SameHeldReplays(a: Alloc, b: Alloc, log: seq<RaftLog>, k: nat)
    requires SameHeld(a, b) && k <= |log|
    ensures SameHeld(Replay(a, log, k), Replay(b, log, k))
  {
    if k > 0 {
      SameHeldReplays(a, b, log, k - 1);
      var x, y := Replay(a, log, k - 1), Replay(b, log, k - 1);
      forall h: Host ensures Held(Replay(a, log, k), h) == Held(Replay(b, log, k), h) {
        assert Held(x, h) == Held(y, h);
      }
    }
  }

  /** Cutting a log anywhere, restoring a snapshot taken there and replaying the rest loses nothing. */
  lemma SnapshotIsTransparent(a: Alloc, log: seq<RaftLog>, cut: nat, d: Dump)
    requires cut <= |log| && IsDump(Replay(a, log, cut), d)
    ensures SameHeld(Replay(Restored(d), log[cut..], |log| - cut), Replay(a, log, |log|))
  {
    ReplayRest(a, log, cut, |log| - cut);
    DumpRestores(Replay(a, log, cut), d);
    SameHeldReplays(Restored(d), Replay(a, log, cut), log[cut..], |log| - cut);
  }
}
