/**
 Anti-flapping of Juggler checks: the events store keeps a window of the newest raw levels of every
 check, and the plugin only reports CRIT when the whole window agrees.
 */
module AntiFlap {
  import opened Wrappers
  import opened Text

  /** `Unset` is the empty string that makes room in the window. */
  datatype Level = Crit | Warn | Info | Ok | Default | Unset
  /** Metahost, name and check joined by colons: checks whose parts join to the same text share a window. */
  datatype Key = Key(text: string)
  type Store = map<Key, seq<Level>>

  /** What goes wrong with one push. */
  datatype Faults = Faults(refused: bool, findFails: bool, writeFails: bool, replyLost: bool)

  /** What comes of a push: the process dies with the worker, or no window comes back, or one does. */
  datatype Reply = Crash | NoAnswer | Window(levels: seq<Level>)

  function Prefix(s: seq<Level>, n: nat): seq<Level> {
    if n < |s| then s[..n] else s
  }

  // ----- the events store

  /** A window once a new level was put in front: never longer than asked for. */
  function Pushed(window: seq<Level>, event: Level, history: nat): seq<Level> {
    Prefix([event] + window, history)
  }

  /** The new level and behind it the stored ones, as many as asked for. */
  predicate NewestOf(stored: seq<Level>, event: Level, wanted: int, window: seq<Level>) {
    && window <= [event] + stored
    && |window| == if wanted < |stored| + 1 then wanted else |stored| + 1
  }

  function WindowOf(events: Store, key: Key): seq<Level> {
    if key in events then events[key] else []
  }

  /** A negative length cannot be cut to, and an empty window that gets no room has no entry to overwrite. */
  predicate Panics(events: Store, key: Key, wanted: int, findFails: bool) {
    !findFails && key in events && (wanted < 0 || (wanted == 0 && events[key] == []))
  }

  /** A lookup that fails is followed by an insert, which fails in turn if there is a document already. */
  function Recorded(events: Store, key: Key, event: Level, wanted: int, f: Faults): Store {
    if f.refused || f.writeFails then events
    else if key !in events then events[key := [event]]
    else if f.findFails || Panics(events, key, wanted, f.findFails) then events
    else events[key := Pushed(events[key], event, wanted)]
  }

  /** The window sent back, even if it could not be written. */
  function Replied(events: Store, key: Key, event: Level, wanted: int, f: Faults): Reply {
    if f.refused then NoAnswer
    else if Panics(events, key, wanted, f.findFails) then Crash
    else if f.replyLost then NoAnswer
    else Window(if f.findFails || key !in events then [event] else Pushed(events[key], event, wanted))
  }

  /** Moves the first levels of the window back by one and puts the new one in front, in place. */
  method ShiftIn(events: array<Level>, history: int, event: Level)
    requires history <= events.Length && 1 <= events.Length
    modifies events
    ensures history >= 0 ==> events[..history] == Pushed(old(events[..]), event, history)
  {
    var i := history - 1;
    while i > 0
      invariant i < history && (history >= 1 ==> 0 <= i)
      invariant forall j :: 0 <= j <= i ==> events[j] == old(events[j])
      invariant forall j :: i < j < history && 0 <= j ==> j == 0 || events[j] == old(events[j - 1])
    {
      events[i] := events[i - 1];
      i := i - 1;
    }
    events[0] := event;
  }

  /** Making room for one entry where there are too few is pushing it. */
  lemma RoomForOne(stored: seq<Level>, event: Level, wanted: nat)
    ensures |stored| < wanted ==> Pushed(stored + [Unset], event, |stored| + 1) == Pushed(stored, event, wanted)
  {}

  /** The new window in place of the stored one; `None` where the worker panics. */
  method Overwrite(stored: seq<Level>, event: Level, wanted: int) returns (window: Option<seq<Level>>)
    ensures window == if wanted < 0 || (wanted == 0 && stored == []) then None else Some(Pushed(stored, event, wanted))
  {
    var extended, history := stored, wanted;
    if |extended| < history {
      extended := extended + [Unset];
      history := |extended|;
    }
    if |extended| == 0 {
      return None;
    }
    var list := new Level[|extended|](i requires 0 <= i < |extended| => extended[i]);
    assert list[..] == extended;
    ShiftIn(list, history, event);
    if history < 0 {
      return None;
    }
    RoomForOne(stored, event, wanted);
    return Some(list[..history]);
  }

  class EventsStore {
    var events: Store

    constructor ()
      ensures events == map[]
    {
      events := map[];
    }

    /** What the worker does with one request; `None` if it panics. */
    method Work(key: Key, event: Level, wanted: int, findFails: bool, writeFails: bool)
      returns (window: Option<seq<Level>>)
      modifies this
      ensures window.None? <==>
        !findFails && key in old(events) && (wanted < 0 || (wanted == 0 && old(events)[key] == []))
      ensures window.Some? && (findFails || key !in old(events)) ==> window.value == [event]
      ensures window.Some? && !findFails && key in old(events) ==>
        NewestOf(old(events)[key], event, wanted, window.value)
      ensures events == if writeFails || window.None? || (findFails && key in old(events)) then old(events)
        else old(events)[key := window.value]
      ensures events == Recorded(old(events), key, event, wanted, Faults(false, findFails, writeFails, false))
      ensures Replied(old(events), key, event, wanted, Faults(false, findFails, writeFails, false))
        == match window case Some(w) => Window(w) case None => Crash
    {
      if findFails || key !in events {
        window := Some([event]);
        if !writeFails && key !in events {
          events := events[key := [event]];
        }
      } else {
        window := Overwrite(events[key], event, wanted);
        if !writeFails && window.Some? {
          events := events[key := window.value];
        }
      }
    }

    /** Pushes an event and gets back the window, unless the request or the reply is lost. */
    method Push(key: Key, event: Level, history: int, f: Faults) returns (reply: Reply)
      modifies this
      ensures f.refused ==> events == old(events) && reply == NoAnswer
      ensures !f.refused ==>
        (reply.Crash? <==>
          !f.findFails && key in old(events) && (history < 0 || (history == 0 && old(events)[key] == [])))
      ensures !f.refused && !reply.Crash? ==> (reply.NoAnswer? <==> f.replyLost)
      ensures events == Recorded(old(events), key, event, history, f)
      ensures reply == Replied(old(events), key, event, history, f)
    {
      if f.refused {
        return NoAnswer;
      }
      var list := Work(key, event, history, f.findFails, f.writeFails);
      return if list.None? then Crash else if f.replyLost then NoAnswer else Window(list.value);
    }
  }

  // ----- the plugin

  /** The first level in the window that differs, or the level itself. */
  function FirstOther(window: seq<Level>, level: Level): Level {
    if window == [] then level else if window[0] != level then window[0] else FirstOther(window[1..], level)
  }

  function LevelsOf(reply: Reply): seq<Level> {
    if reply.Window? then reply.levels else []
  }

  /** Without an answer, or with an empty window, there is nothing to compare with. */
  method CheckHistory(history: Reply, level: Level) returns (checked: Level)
    ensures checked == FirstOther(LevelsOf(history), level)
  {
    if history.Window? {
      var window := history.levels;
      for i := 0 to |window|
        invariant FirstOther(window, level) == FirstOther(window[i..], level)
      {
        assert window[i..][1..] == window[i + 1..];
        if window[i] != level {
          return window[i];
        }
      }
    }
    return level;
  }

  /**
   One group of a payload: for which levels a condition exists and fires, the history length its
   check's config asks for, and what its push runs into.
   */
  datatype Datum = Datum(matches: bool, metahost: string, name: string, check: string, fires: set<Level>,
                         history: Option<int>, f: Faults)

  function KeyOf(d: Datum): Key {
    Key(d.metahost + ":" + d.name + ":" + d.check)
  }

  const LEVELS: seq<Level> := [Crit, Warn, Info, Ok, Default]

  /** The raw level: the first that fires, from the most severe down, and OK if none does. */
  function RawLevel(fires: set<Level>): Level {
    if Crit in fires then Crit else if Warn in fires then Warn else if Info in fires then Info
    else if Ok in fires then Ok else if Default in fires then Default else Ok
  }

  /** The store once a level was pushed for the group, if its config wants a history. */
  function StoreWith(events: Store, d: Datum, event: Level): Store {
    if d.history.Some? then Recorded(events, KeyOf(d), event, d.history.value, d.f) else events
  }

  function AnswerTo(events: Store, d: Datum, event: Level): Reply {
    if d.history.Some? then Replied(events, KeyOf(d), event, d.history.value, d.f) else NoAnswer
  }

  /** A raw CRIT is checked against the window; any other level is reported as it is. */
  function Emitted(raw: Level, answer: Reply): Level {
    if raw == Crit then FirstOther(LevelsOf(answer), Crit) else raw
  }

  /** The store after the first k groups, each of which matches its check's type or is skipped. */
  function StoreAfter(events: Store, payload: seq<Datum>, k: nat): Store
    requires k <= |payload|
  {
    if k == 0 then events
    else
      var before, d := StoreAfter(events, payload, k - 1), payload[k - 1];
      if d.matches then StoreWith(before, d, RawLevel(d.fires)) else before
  }

  /** The push for group k kills the process. */
  predicate CrashesAt(events: Store, payload: seq<Datum>, k: nat)
    requires k < |payload|
  {
    payload[k].matches && AnswerTo(StoreAfter(events, payload, k), payload[k], RawLevel(payload[k].fires)).Crash?
  }

  /** What is reported for group k. */
  function ReportAt(events: Store, payload: seq<Datum>, k: nat): seq<Level>
    requires k < |payload|
  {
    var d := payload[k];
    if !d.matches || CrashesAt(events, payload, k) then []
    else [Emitted(RawLevel(d.fires), AnswerTo(StoreAfter(events, payload, k), d, RawLevel(d.fires)))]
  }

  /** The levels reported for the first k groups. */
  function Results(events: Store, payload: seq<Datum>, k: nat): seq<Level>
    requires k <= |payload|
  {
    if k == 0 then [] else Results(events, payload, k - 1) + ReportAt(events, payload, k - 1)
  }

  method PushEvent(store: EventsStore, d: Datum, event: Level) returns (answer: Reply)
    modifies store
    ensures store.events == StoreWith(old(store.events), d, event)
    ensures answer == AnswerTo(old(store.events), d, event)
  {
    if d.history.Some? {
      answer := store.Push(KeyOf(d), event, d.history.value, d.f);
    } else {
      answer := NoAnswer;
    }
  }

  lemma FirstThatFires(fires: set<Level>, idx: nat)
    requires idx < |LEVELS| && forall j :: 0 <= j < idx ==> LEVELS[j] !in fires
    ensures LEVELS[idx] in fires ==> RawLevel(fires) == LEVELS[idx]
    ensures idx == 4 && LEVELS[idx] !in fires ==> RawLevel(fires) == Ok
  {
    assert idx > 0 ==> LEVELS[0] !in fires;
    assert idx > 1 ==> LEVELS[1] !in fires;
    assert idx > 2 ==> LEVELS[2] !in fires;
    assert idx > 3 ==> LEVELS[3] !in fires;
  }

  /** The level-selection loop for one group; `None` if the process dies with its push. */
  method SelectLevel(store: EventsStore, d: Datum) returns (level: Option<Level>)
    modifies store
    ensures store.events == StoreWith(old(store.events), d, RawLevel(d.fires))
    ensures level == var answer := AnswerTo(old(store.events), d, RawLevel(d.fires));
      if answer.Crash? then None else Some(Emitted(RawLevel(d.fires), answer))
  {
    level := None;
    for idx := 0 to |LEVELS|
      invariant idx < |LEVELS| && store.events == old(store.events)
      invariant forall j :: 0 <= j < idx ==> LEVELS[j] !in d.fires
    {
      FirstThatFires(d.fires, idx);
      if LEVELS[idx] in d.fires {
        var prevLevels := PushEvent(store, d, LEVELS[idx]);
        if prevLevels.Crash? {
          return None;
        }
        var checked := LEVELS[idx];
        if checked == Crit {
          checked := CheckHistory(prevLevels, checked);
        }
        return Some(checked);
      }
      if idx == 4 {
        var ignored := PushEvent(store, d, Ok);
        return if ignored.Crash? then None else Some(Ok);
      }
    }
  }

  /** All groups in turn.  `None` if the process dies, with the first `done` groups done. */
  method Run(store: EventsStore, payload: seq<Datum>) returns (result: Option<seq<Level>>, ghost done: nat)
    modifies store
    ensures done <= |payload| && forall k :: 0 <= k < done ==> !CrashesAt(old(store.events), payload, k)
    ensures store.events == StoreAfter(old(store.events), payload, done)
    ensures result.Some? ==> done == |payload| && result.value == Results(old(store.events), payload, done)
    ensures result.None? ==> done < |payload| && CrashesAt(old(store.events), payload, done)
  {
    var levels: seq<Level> := [];
    ghost var events := store.events;
    for i := 0 to |payload|
      invariant store.events == StoreAfter(events, payload, i) && levels == Results(events, payload, i)
      invariant forall k :: 0 <= k < i ==> !CrashesAt(events, payload, k)
    {
      if payload[i].matches {
        var level := SelectLevel(store, payload[i]);
        if level.None? {
          CrashChangesNothing(events, payload, i);
          return None, i;
        }
        levels := levels + [level.value];
      }
    }
    return Some(levels), |payload|;
  }

  lemma CrashChangesNothing(events: Store, payload: seq<Datum>, k: nat)
    requires k < |payload| && CrashesAt(events, payload, k)
    ensures StoreAfter(events, payload, k + 1) == StoreAfter(events, payload, k)
  {}

  // ----- what the windows hold

  /** A level that was recorded under a key, and how long the window could be then. */
  datatype Entry = Entry(level: Level, limit: nat)

  /** The push leaves its event in the store. */
  predicate Lands(events: Store, d: Datum) {
    && d.matches && d.history.Some? && !d.f.refused && !d.f.writeFails
    && (KeyOf(d) in events ==> !d.f.findFails && !Panics(events, KeyOf(d), d.history.value, false))
  }

  /** A first entry is inserted whatever the config asks for. */
  function EntryOf(events: Store, d: Datum): Entry
    requires Lands(events, d)
  {
    Entry(RawLevel(d.fires), if KeyOf(d) in events then d.history.value else 1)
  }

  /** What was recorded under one key, oldest first: the pushes that left their event in the store. */
  function Entries(events: Store, payload: seq<Datum>, key: Key, k: nat): seq<Entry>
    requires k <= |payload|
  {
    if k == 0 then []
    else
      var d, store := payload[k - 1], StoreAfter(events, payload, k - 1);
      Entries(events, payload, key, k - 1) + if KeyOf(d) == key && Lands(store, d) then [EntryOf(store, d)] else []
  }

  /** The recorded levels, the newest first. */
  function NewestFirst(entries: seq<Entry>): seq<Level> {
    seq(|entries|, i requires 0 <= i < |entries| => entries[|entries| - 1 - i].level)
  }

  /**
   A window of n levels is as long as it can be: it grew by one with each entry, but no entry left more
   than its limit.
   */
  ghost predicate AsLongAsCanBe(n: nat, before: nat, entries: seq<Entry>) {
    && n <= before + |entries|
    && (forall i :: 0 <= i < |entries| ==> n <= LimitOf(entries, i))
    && (n == before + |entries| || exists i :: 0 <= i < |entries| && n == LimitOf(entries, i))
  }

  /** How long a window can be that was cut by its i-th entry. */
  function LimitOf(entries: seq<Entry>, i: int): int
    requires 0 <= i < |entries|
  {
    entries[i].limit + (|entries| - 1 - i)
  }

  /** The window holds the newest levels, newest first: those recorded, and then those there were before. */
  ghost predicate HoldsNewest(window: seq<Level>, before: seq<Level>, entries: seq<Entry>) {
    && window <= NewestFirst(entries) + before
    && AsLongAsCanBe(|window|, |before|, entries)
  }

  lemma OneMoreEntry(window: seq<Level>, before: seq<Level>, entries: seq<Entry>, e: Entry)
    requires HoldsNewest(window, before, entries)
    ensures HoldsNewest(Pushed(window, e.level, e.limit), before, entries + [e])
  {
    var more, after := entries + [e], Pushed(window, e.level, e.limit);
    assert NewestFirst(more) + before == [e.level] + (NewestFirst(entries) + before);
    forall i | 0 <= i < |more| ensures |after| <= LimitOf(more, i) {
      if i < |entries| { assert LimitOf(more, i) == LimitOf(entries, i) + 1; }
    }
    if |after| == e.limit {
      assert LimitOf(more, |entries|) == |after|;
    } else if |window| != |before| + |entries| {
      var i :| 0 <= i < |entries| && |window| == LimitOf(entries, i);
      assert LimitOf(more, i) == |after|;
    }
  }

  /** A push that lands is an entry more under its key, and nothing else changes. */
  lemma LandedIs(events: Store, d: Datum, key: Key)
    requires d.matches
    ensures var after := StoreWith(events, d, RawLevel(d.fires));
      if KeyOf(d) == key && Lands(events, d)
      then key in after
        && WindowOf(after, key) == Pushed(WindowOf(events, key), RawLevel(d.fires), EntryOf(events, d).limit)
      else (key in after <==> key in events) && WindowOf(after, key) == WindowOf(events, key)
  {}

  /** Under this key the store holds what was there before and these entries. */
  ghost predicate Describes(events: Store, key: Key, store: Store, entries: seq<Entry>) {
    && (key in store <==> key in events || entries != [])
    && HoldsNewest(WindowOf(store, key), WindowOf(events, key), entries)
  }

  lemma NothingRecorded(events: Store, key: Key)
    ensures Describes(events, key, events, [])
  {
    assert NewestFirst([]) + WindowOf(events, key) == WindowOf(events, key);
  }

  lemma StoreStep(events: Store, key: Key, store: Store, entries: seq<Entry>, d: Datum)
    requires Describes(events, key, store, entries) && d.matches
    ensures Describes(events, key, StoreWith(store, d, RawLevel(d.fires)),
      entries + if KeyOf(d) == key && Lands(store, d) then [EntryOf(store, d)] else [])
  {
    LandedIs(store, d, key);
    if KeyOf(d) == key && Lands(store, d) {
      OneMoreEntry(WindowOf(store, key), WindowOf(events, key), entries, EntryOf(store, d));
    } else {
      assert entries + [] == entries;
    }
  }

  /**
   However checks interleave, whatever history their configs ask for and whatever goes wrong with their
   pushes, the store keeps under each key the newest levels, newest first: as many as were recorded
   since there were so few, or since an entry left no more.
   */
  lemma {:induction false} StoreKeepsNewest(events: Store, payload: seq<Datum>, key: Key, k: nat)
    requires k <= |payload|
    ensures Describes(events, key, StoreAfter(events, payload, k), Entries(events, payload, key, k))
  {
    if k == 0 {
      NothingRecorded(events, key);
    } else {
      StoreKeepsNewest(events, payload, key, k - 1);
      var store, entries := StoreAfter(events, payload, k - 1), Entries(events, payload, key, k - 1);
      if payload[k - 1].matches {
        StoreStep(events, key, store, entries, payload[k - 1]);
      } else {
        assert entries + [] == entries;
      }
    }
  }

  /** Every entry but the first was limited to the same length. */
  ghost predicate Limited(entries: seq<Entry>, history: int) {
    forall i :: 0 <= i < |entries| ==> entries[i].limit == if i == 0 then 1 else history
  }

  lemma {:induction false} SameLimits(payload: seq<Datum>, key: Key, k: nat, history: int)
    requires k <= |payload| && forall i :: 0 <= i < k ==> payload[i].history == Some(history)
    ensures Limited(Entries(map[], payload, key, k), history)
  {
    if k > 0 {
      SameLimits(payload, key, k - 1, history);
      StoreKeepsNewest(map[], payload, key, k - 1);
      var store, d, before := StoreAfter(map[], payload, k - 1), payload[k - 1], Entries(map[], payload, key, k - 1);
      if KeyOf(d) == key && Lands(store, d) {
        assert d.history == Some(history);
        assert EntryOf(store, d).limit == if before == [] then 1 else history;
        assert Entries(map[], payload, key, k) == before + [EntryOf(store, d)];
      } else {
        assert Entries(map[], payload, key, k) == before + [] == before;
      }
    }
  }

  /** Where all configs ask for one length, and from an empty store, windows are the newest levels up to that length. */
  lemma OneHistory(payload: seq<Datum>, key: Key, k: nat, history: nat)
    requires k <= |payload| && history >= 1 && forall i :: 0 <= i < k ==> payload[i].history == Some(history)
    ensures WindowOf(StoreAfter(map[], payload, k), key) ==
      Prefix(NewestFirst(Entries(map[], payload, key, k)), history)
  {
    var window, entries := WindowOf(StoreAfter(map[], payload, k), key), Entries(map[], payload, key, k);
    StoreKeepsNewest(map[], payload, key, k);
    SameLimits(payload, key, k, history);
    assert NewestFirst(entries) + [] == NewestFirst(entries);
    if |entries| > 0 {
      assert |window| <= LimitOf(entries, |entries| - 1);
      if |window| != |entries| {
        var i :| 0 <= i < |entries| && |window| == LimitOf(entries, i);
      }
    }
  }

  // ----- what is reported

  lemma {:induction false} FirstOtherIs(window: seq<Level>, level: Level)
    ensures FirstOther(window, level) == level <==> forall i :: 0 <= i < |window| ==> window[i] == level
    ensures FirstOther(window, level) != level ==>
      exists i ::
        0 <= i < |window| && window[i] == FirstOther(window, level) && forall j :: 0 <= j < i ==> window[j] == level
  {
    if window != [] {
      FirstOtherIs(window[1..], level);
      if window[0] == level && FirstOther(window[1..], level) != level {
        var i :| 0 <= i < |window[1..]| && window[1..][i] == FirstOther(window[1..], level)
          && forall j :: 0 <= j < i ==> window[1..][j] == level;
        assert window[i + 1] == FirstOther(window, level);
        forall j | 0 <= j < i + 1 ensures window[j] == level {
          if j > 0 { assert window[1..][j - 1] == level; }
        }
      }
      assert forall i :: 0 < i < |window| ==> window[i] == window[1..][i - 1];
    }
  }

  /** `level` is what a raw CRIT is turned into by a window: CRIT if all agree, else the newest other level. */
  ghost predicate Damped(window: seq<Level>, level: Level) {
    && (level == Crit <==> forall i :: 0 <= i < |window| ==> window[i] == Crit)
    && (level != Crit ==> exists i :: 0 <= i < |window| && NewestOther(window, level, i))
  }

  ghost predicate NewestOther(window: seq<Level>, level: Level, i: int)
    requires 0 <= i < |window|
  {
    window[i] == level && forall j :: 0 <= j < i ==> window[j] == Crit
  }

  lemma WindowDamps(window: seq<Level>)
    ensures Damped(window, FirstOther(window, Crit))
  {
    var level := FirstOther(window, Crit);
    FirstOtherIs(window, Crit);
    if level != Crit {
      var i :| 0 <= i < |window| && window[i] == level && forall j :: 0 <= j < i ==> window[j] == Crit;
      assert NewestOther(window, level, i);
    }
  }

  /** The plugin got the window back, with its event in front. */
  predicate Answered(events: Store, d: Datum) {
    && d.history.Some? && !d.f.refused && !d.f.findFails && !d.f.replyLost
    && !Panics(events, KeyOf(d), d.history.value, false)
  }

  /** How long a window comes back. */
  function LimitFor(events: Store, d: Datum): nat
    requires Answered(events, d)
  {
    if KeyOf(d) in events then d.history.value else 1
  }

  /**
   A check that is raw CRIT and got its window back is reported CRIT exactly when every level in the
   window is CRIT: this one, and the newest levels before it.  Otherwise the newest other level is
   reported.  Without the window it is reported CRIT, unless its push kills the process.
   */
  lemma CritNeedsWholeWindow(events: Store, payload: seq<Datum>, k: nat)
    requires k < |payload| && payload[k].matches && RawLevel(payload[k].fires) == Crit
    ensures var d, before := payload[k], StoreAfter(events, payload, k); var reported := ReportAt(events, payload, k);
      && (CrashesAt(events, payload, k) ==> reported == [])
      && (!CrashesAt(events, payload, k) && !Answered(before, d) ==> reported == [Crit])
      && (Answered(before, d) ==>
          && |reported| == 1
          && var window := Pushed(WindowOf(before, KeyOf(d)), Crit, LimitFor(before, d));
            && Damped(window, reported[0])
            && HoldsNewest(window, WindowOf(events, KeyOf(d)),
                           Entries(events, payload, KeyOf(d), k) + [Entry(Crit, LimitFor(before, d))]))
  {
    var d, before := payload[k], StoreAfter(events, payload, k);
    StoreKeepsNewest(events, payload, KeyOf(d), k);
    if Answered(before, d) {
      var limit := LimitFor(before, d);
      OneMoreEntry(WindowOf(before, KeyOf(d)), WindowOf(events, KeyOf(d)), Entries(events, payload, KeyOf(d), k),
                   Entry(Crit, limit));
      WindowDamps(Pushed(WindowOf(before, KeyOf(d)), Crit, limit));
    }
    assert FirstOther([Crit], Crit) == Crit by { assert [Crit][1..] == []; }
  }

  // ----- which level is taken

  /** Of the levels that fire the most severe one, and OK if none does: from CRIT over WARN and INFO down. */
  ghost predicate MostSevere(fires: set<Level>, level: Level) {
    && (level == Crit <==> Crit in fires)
    && (level == Warn <==> Crit !in fires && Warn in fires)
    && (level == Info <==> Crit !in fires && Warn !in fires && Info in fires)
    && (level == Default <==> fires - {Unset} == {Default})
    && level != Unset
  }

  lemma RawIsMostSevere(fires: set<Level>)
    ensures MostSevere(fires, RawLevel(fires))
  {
    if RawLevel(fires) == Default {
      forall level | level in fires && level != Unset ensures level == Default {}
      assert fires - {Unset} == {Default};
    } else {
      assert RawLevel(fires) in fires || Default !in fires;
      assert RawLevel(fires) in fires ==> RawLevel(fires) in fires - {Unset};
    }
  }

  /**
   A group of another type is skipped.  Any other one has the most severe level that fires put in front
   of its window, where the push lands and leaves room; and if that level is not CRIT, and the process
   lives on, it is what is reported, whatever the window holds.
   */
  lemma LevelTaken(events: Store, payload: seq<Datum>, k: nat)
    requires k < |payload|
    ensures var d, before, after := payload[k], StoreAfter(events, payload, k), StoreAfter(events, payload, k + 1);
      && (!d.matches ==> after == before && ReportAt(events, payload, k) == [])
      && (d.matches && !CrashesAt(events, payload, k) && Crit !in d.fires ==>
          exists level :: MostSevere(d.fires, level) && ReportAt(events, payload, k) == [level])
      && (Lands(before, d) && d.history.value != 0 ==> KeyOf(d) in after && after[KeyOf(d)] != [])
      && (Lands(before, d) && d.history.value != 0 ==> MostSevere(d.fires, after[KeyOf(d)][0]))
  {
    var d, before := payload[k], StoreAfter(events, payload, k);
    RawIsMostSevere(d.fires);
    if d.matches {
      LandedIs(before, d, KeyOf(d));
    }
  }

  /** What stands before the first colon and behind it can be told from the whole. */
  lemma ColonTells(a: string, b: string, x: string, y: string)
    requires ':' !in a && ':' !in x
    ensures a + ":" + b == x + ":" + y <==> a == x && b == y
  {
    FindAfter(a, ':', b);
    FindAfter(x, ':', y);
    assert (a + ":" + b)[..|a|] == a && (a + ":" + b)[|a| + 1..] == b;
    assert (x + ":" + y)[..|x|] == x && (x + ":" + y)[|x| + 1..] == y;
  }

  /** Checks whose metahosts and names hold no colon share a window only if they are the same. */
  lemma KeysTell(d: Datum, e: Datum)
    requires ':' !in d.metahost && ':' !in d.name && ':' !in e.metahost && ':' !in e.name
    ensures KeyOf(d) == KeyOf(e) <==> d.metahost == e.metahost && d.name == e.name && d.check == e.check
  {
    var b, y := d.name + ":" + d.check, e.name + ":" + e.check;
    assert KeyOf(d).text == d.metahost + ":" + b && KeyOf(e).text == e.metahost + ":" + y;
    ColonTells(d.metahost, b, e.metahost, y);
    ColonTells(d.name, d.check, e.name, e.check);
  }

  /** A colon inside a name can make two checks share one. */
  lemma KeysMeet(d: Datum, e: Datum, x: string, y: string, z: string)
    requires d.metahost == x + ":" + y && d.name == z && e.metahost == x && e.name == y + ":" + z && d.check == e.check
    ensures KeyOf(d) == KeyOf(e)
  {
    assert KeyOf(d).text == x + ":" + y + ":" + z + ":" + d.check == KeyOf(e).text;
  }
}
