/**
 The loops of the Multimetrics aggregator: a host's lines are folded into its result one by one, and
 the results of many hosts are merged, histogram by histogram, before quantiles are read off.
 */
module Aggregator {
  import opened Sums
  import opened Wrappers
  import opened Text
  import opened Multimetrics
  import opened Quantiles

  // ----- one line at a time

  function AddedSample(h: Hist, sample: Sample): Hist {
    h[sample.key := CountAt(h, sample.key) + sample.count]
  }

  function AddedSamples(h: Hist, samples: seq<Sample>): Hist
    decreases |samples|
  {
    if samples == [] then h else AddedSamples(AddedSample(h, samples[0]), samples[1..])
  }

  function HistOf(m: Metrics, name: string): Hist {
    if name in m && m[name].Timings? then m[name].hist else map[]
  }

  function ValueOf(m: Metrics, name: string): real {
    if name in m && m[name].Scalar? then m[name].value else 0.0
  }

  /** What a line's effect makes of the result so far. */
  function Applied(m: Metrics, e: Effect): Metrics {
    match e
    case Nothing => m
    case Adds(name, value) => m[name := Scalar(ValueOf(m, name) + value)]
    case Timed(name, samples) => m[name := Timings(AddedSamples(HistOf(m, name), samples))]
  }

  /** Which kind of metric a name stands for depends on the name alone. */
  ghost predicate WellTyped(s: Settings, m: Metrics) {
    forall name :: name in m ==> (m[name].Timings? <==> IsTimings(s, name))
  }

  ghost predicate EffectTyped(s: Settings, e: Effect) {
    (e.Timed? ==> IsTimings(s, e.name)) && (e.Adds? ==> !IsTimings(s, e.name))
  }

  lemma {:induction false} AddedSamplesCount(h: Hist, samples: seq<Sample>, key: real)
    ensures AddedSamples(h, samples).Keys == h.Keys + SampleKeys(samples)
    ensures CountAt(AddedSamples(h, samples), key) == CountAt(h, key) + SampleCount(samples, key)
    decreases |samples|
  {
    if samples != [] {
      var rest := samples[1..];
      AddedSamplesCount(AddedSample(h, samples[0]), rest, key);
      assert SampleKeys(samples) == {samples[0].key} + SampleKeys(rest) by {
        forall k ensures k in SampleKeys(samples) <==> k in {samples[0].key} + SampleKeys(rest) {
          if k in SampleKeys(samples) && k != samples[0].key {
            var i :| 0 <= i < |samples| && samples[i].key == k;
            assert rest[i - 1].key == k;
          }
          if k in SampleKeys(rest) {
            var i :| 0 <= i < |rest| && rest[i].key == k;
            assert samples[i + 1].key == k;
          }
        }
      }
    }
  }

  /** The samples a line adds to one metric. */
  function SamplesOf(e: Effect, name: string): seq<Sample> {
    if e.Timed? && e.name == name then e.samples else []
  }

  lemma HistOneMore(read: Reader, lines: seq<string>, line: string, name: string, h: Hist)
    requires h.Keys == Union(KeysFor(read, name), lines)
    requires forall key :: CountAt(h, key) == Total(CountFor(read, name, key), lines)
    ensures AddedSamples(h, SamplesOf(read(line), name)).Keys == Union(KeysFor(read, name), lines + [line])
    ensures forall key ::
      CountAt(AddedSamples(h, SamplesOf(read(line), name)), key) == Total(CountFor(read, name, key), lines + [line])
  {
    var e, more := read(line), lines + [line];
    assert more[..|more| - 1] == lines;
    AddedSamplesCount(h, SamplesOf(e, name), 0.0);
    assert KeysOf(e, name) == SampleKeys(SamplesOf(e, name));
    forall key ensures CountAt(AddedSamples(h, SamplesOf(e, name)), key) == Total(CountFor(read, name, key), more) {
      AddedSamplesCount(h, SamplesOf(e, name), key);
    }
  }

  lemma MetricOneMore(s: Settings, read: Reader, lines: seq<string>, line: string, name: string)
    requires EffectTyped(s, read(line))
    ensures var before, e := HostResult(s, read, lines), read(line);
      HostMetric(s, read, lines + [line], name) ==
        if IsTimings(s, name) then Timings(AddedSamples(HistOf(before, name), SamplesOf(e, name)))
        else Scalar(ValueOf(before, name) + Value(e, name))
  {
    var before, e, more := HostResult(s, read, lines), read(line), lines + [line];
    HostTotals(s, read, lines, name);
    if IsTimings(s, name) {
      var h := HistOf(before, name);
      forall key ensures CountAt(h, key) == Total(CountFor(read, name, key), lines) {
        assert ItemCount(name, key)(before) == CountAt(h, key);
      }
      assert ItemKeys(name)(before) == h.Keys;
      HistOneMore(read, lines, line, name, h);
      SameHist(AddedSamples(h, SamplesOf(e, name)), HostMetric(s, read, more, name).hist);
    } else {
      assert more[..|more| - 1] == lines;
      assert ItemValue(name)(before) == ValueOf(before, name);
    }
  }

  lemma SameHist(g: Hist, h: Hist)
    requires g.Keys == h.Keys && forall key :: key in g ==> CountAt(g, key) == CountAt(h, key)
    ensures g == h
  {
    forall key | key in g ensures g[key] == h[key] { assert CountAt(g, key) == CountAt(h, key); }
  }

  /** One line more: what all lines give at once is what the last line makes of the rest. */
  lemma HostOneMore(s: Settings, read: Reader, lines: seq<string>, line: string)
    requires EffectTyped(s, read(line))
    ensures HostResult(s, read, lines + [line]) == Applied(HostResult(s, read, lines), read(line))
  {
    var before, e, more := HostResult(s, read, lines), read(line), lines + [line];
    assert more[..|more| - 1] == lines;
    forall name | name in HostResult(s, read, more)
      ensures name in Applied(before, e) && HostMetric(s, read, more, name) == Applied(before, e)[name]
    {
      HostTotals(s, read, lines, name);
      MetricOneMore(s, read, lines, line, name);
    }
  }

  lemma ReaderIsTyped(s: Settings, delta: real, line: string)
    requires delta != 0.0
    ensures EffectTyped(s, ParseLine(s, delta, line))
  {}

  lemma HostIsTyped(s: Settings, read: Reader, lines: seq<string>)
    ensures WellTyped(s, HostResult(s, read, lines))
  {}

  /** Adds one timing to the named histogram; fails where float() or the unpacking raises. */
  method AddTimings(container: Metrics, s: Settings, name: string, timingsValue: string)
    returns (ok: bool, updated: Metrics)
    requires name in container && container[name].Timings?
    ensures ok <==> !ParseToken(s, name, timingsValue).Bad?
    ensures updated == container[name := Timings(
      match ParseToken(s, name, timingsValue)
      case Good(sample) => AddedSample(container[name].hist, sample)
      case _ => container[name].hist)]
  {
    updated := container;
    var value, count := timingsValue, 1.0;
    if name != "" && name[0] == '@' {
      var at := Find(timingsValue, '@');
      if at == |timingsValue| {
        return true, updated;
      }
      if '@' in timingsValue[at + 1..] {
        return false, updated;
      }
      value := timingsValue[..at];
      if value == "" {
        return true, updated;
      }
      var parsed := s.number(timingsValue[at + 1..]);
      if parsed.None? {
        return false, updated;
      }
      count := parsed.value;
    }
    var key := s.number(value);
    if key.None? {
      return false, updated;
    }
    var timDict := container[name].hist;
    if key.value in timDict {
      timDict := timDict[key.value := timDict[key.value] + count];
    } else {
      timDict := timDict[key.value := count];
    }
    return true, container[name := Timings(timDict)];
  }

  /** Adds the timings of a line in turn; a malformed one ends the line. */
  method AddAllTimings(container: Metrics, s: Settings, name: string, tokens: seq<string>) returns (updated: Metrics)
    requires name in container && container[name].Timings?
    ensures updated == container[name := Timings(AddedSamples(container[name].hist, ParseTokens(s, name, tokens)))]
  {
    updated := container;
    for i := 0 to |tokens|
      invariant name in updated && updated[name].Timings?
      invariant updated == container[name := updated[name]]
      invariant AddedSamples(container[name].hist, ParseTokens(s, name, tokens))
        == AddedSamples(updated[name].hist, ParseTokens(s, name, tokens[i..]))
    {
      assert tokens[i..][1..] == tokens[i + 1..];
      var ok;
      ok, updated := AddTimings(updated, s, name, tokens[i]);
      if !ok {
        return;
      }
    }
  }

  /** The sum of a line's numbers, unless one of them is malformed. */
  method SumNumbers(s: Settings, tokens: seq<string>) returns (sum: Option<real>)
    ensures sum == SumTokens(s, tokens)
  {
    var total := 0.0;
    for i := 0 to |tokens|
      invariant SumTokens(s, tokens[..i]) == Some(total)
    {
      assert tokens[..i + 1][..i] == tokens[..i];
      var x := s.number(tokens[i]);
      if x.None? {
        OneBadToken(s, tokens, i);
        return None;
      }
      total := total + x.value;
    }
    assert tokens[..|tokens|] == tokens;
    return Some(total);
  }

  lemma {:induction false} OneBadToken(s: Settings, tokens: seq<string>, i: nat)
    requires i < |tokens| && s.number(tokens[i]).None?
    ensures SumTokens(s, tokens) == None
  {
    if i < |tokens| - 1 {
      OneBadToken(s, tokens[..|tokens| - 1], i);
    }
  }

  method AddLine(s: Settings, delta: real, rawLine: string, result: Metrics) returns (updated: Metrics)
    requires delta != 0.0 && WellTyped(s, result)
    ensures updated == Applied(result, ParseLine(s, delta, rawLine))
  {
    var line := Replace(Strip(rawLine), {'\t'}, ' ');
    if line == "" {
      return result;
    }
    var at := Find(line, ' ');
    var name := Strip(line[..at]);
    var metricsAsStrings := Strip(line[if at < |line| then at + 1 else at..]);
    if exists c :: c in name && c in FORBIDDEN {
      return result;
    }
    if IsTimings(s, name) {
      updated := AddTimingsLine(s, name, Replace(metricsAsStrings, {',', '-', ':'}, ' '), result);
    } else {
      updated := AddNumbersLine(s, delta, name, metricsAsStrings, result);
    }
  }

  method AddTimingsLine(s: Settings, name: string, metricsAsStrings: string, result: Metrics) returns (updated: Metrics)
    requires name in result ==> result[name].Timings?
    ensures updated == if metricsAsStrings == "" then result
      else Applied(result, Timed(name, ParseTokens(s, name, Words(metricsAsStrings))))
  {
    updated := result;
    if metricsAsStrings == "" {
      return;
    }
    if name !in updated {
      updated := updated[name := Timings(map[])];
    }
    updated := AddAllTimings(updated, s, name, Words(metricsAsStrings));
  }

  method AddNumbersLine(s: Settings, delta: real, name: string, metricsAsStrings: string, result: Metrics)
    returns (updated: Metrics)
    requires delta != 0.0 && (name in result ==> result[name].Scalar?)
    ensures updated == match SumTokens(s, Words(metricsAsStrings))
      case Some(sum) => Applied(result, Adds(name, Rate(s, sum, delta)))
      case None => result
  {
    updated := result;
    var sum := SumNumbers(s, Words(metricsAsStrings));
    if sum.None? {
      return;
    }
    var value := if s.rps then sum.value / delta else sum.value;
    if name in updated {
      updated := updated[name := Scalar(updated[name].value + value)];
    } else {
      updated := updated[name := Scalar(value)];
    }
  }

  /** `host` is what adding one line at a time makes of any lines. */
  ghost predicate Folds(s: Settings, delta: real, host: seq<string> -> Metrics, some: seq<string>, line: string)
    requires delta != 0.0
  {
    && WellTyped(s, host(some))
    && host(some + [line]) == Applied(host(some), ParseLine(s, delta, line))
  }

  lemma HostFolds(s: Settings, delta: real, some: seq<string>, line: string)
    requires delta != 0.0
    ensures Folds(s, delta, Hosting(s, LineReader(s, delta)), some, line)
  {
    HostIsTyped(s, LineReader(s, delta), some);
    ReaderIsTyped(s, delta, line);
    HostOneMore(s, LineReader(s, delta), some, line);
  }

  /** `host` is what adding one line at a time, to nothing at first, makes of any lines. */
  ghost predicate FoldsAll(s: Settings, delta: real, host: seq<string> -> Metrics)
    requires delta != 0.0
  {
    host([]) == map[] && forall some, line :: Folds(s, delta, host, some, line)
  }

  lemma HostFoldsAll(s: Settings, delta: real) returns (host: seq<string> -> Metrics)
    requires delta != 0.0
    ensures FoldsAll(s, delta, host)
    ensures forall lines {:trigger host(lines)} :: host(lines) == HostResult(s, LineReader(s, delta), lines)
  {
    host := Hosting(s, LineReader(s, delta));
    forall some, line ensures Folds(s, delta, host, some, line) {
      HostFolds(s, delta, some, line);
    }
  }

  /** Rates are by the time between two fetches, or one second if the clock did not advance. */
  method AggregateHost(s: Settings, lines: seq<string>, prevtime: real, currtime: real) returns (result: Metrics)
    ensures WellTyped(s, result)
    ensures currtime > prevtime ==> result == HostResult(s, LineReader(s, currtime - prevtime), lines)
    ensures currtime <= prevtime ==> result == HostResult(s, LineReader(s, 1.0), lines)
  {
    var delta := currtime - prevtime;
    if delta <= 0.0 {
      delta := 1.0;
    }
    result := AggregateLines(s, delta, lines);
  }

  method AggregateLines(s: Settings, delta: real, lines: seq<string>) returns (result: Metrics)
    requires delta != 0.0
    ensures WellTyped(s, result)
    ensures result == HostResult(s, LineReader(s, delta), lines)
  {
    ghost var host := HostFoldsAll(s, delta);
    result := FoldLines(s, delta, lines, host);
    assert result == host(lines);
  }

  method FoldLines(s: Settings, delta: real, lines: seq<string>, ghost host: seq<string> -> Metrics)
    returns (result: Metrics)
    requires delta != 0.0 && FoldsAll(s, delta, host)
    ensures result == host(lines) && WellTyped(s, result)
  {
    result := map[];
    for i := 0 to |lines|
      invariant result == host(lines[..i])
    {
      assert lines[..i + 1] == lines[..i] + [lines[i]];
      assert Folds(s, delta, host, lines[..i], lines[i]);
      result := AddLine(s, delta, lines[i], result);
    }
    assert lines[..|lines|] == lines;
    assert Folds(s, delta, host, lines, "");
  }

  // ----- counts of a whole histogram

  lemma {:induction false} AscendingMultiset(keys: set<real>)
    ensures multiset(Ascending(keys)) == multiset(keys)
    decreases |keys|
  {
    if keys != {} {
      var least := Least(keys);
      AscendingMultiset(keys - {least});
      assert keys == (keys - {least}) + {least};
    }
  }

  lemma {:induction false} WeightIsTotal(keys: seq<real>, t: Hist)
    ensures Weight(keys, t) == Total(k => CountAt(t, k), keys)
  {
    if keys != [] {
      WeightIsTotal(keys[1..], t);
      TotalConcat(k => CountAt(t, k), [keys[0]], keys[1..]);
      assert keys == [keys[0]] + keys[1..];
    }
  }

  lemma {:induction false} WeightElsewhere(keys: seq<real>, t: Hist, u: Hist)
    requires forall k :: k in keys ==> CountAt(t, k) == CountAt(u, k)
    ensures Weight(keys, t) == Weight(keys, u)
  {
    if keys != [] {
      assert keys[0] in keys;
      WeightElsewhere(keys[1..], t, u);
    }
  }

  lemma WeightReordered(xs: seq<real>, ys: seq<real>, t: Hist)
    requires multiset(xs) == multiset(ys)
    ensures Weight(xs, t) == Weight(ys, t)
  {
    WeightIsTotal(xs, t);
    WeightIsTotal(ys, t);
    TotalReordered(k => CountAt(t, k), xs, ys);
  }

  lemma AscendingWithout(keys: set<real>, k: real)
    requires k in keys
    ensures multiset([k] + Ascending(keys - {k})) == multiset(Ascending(keys))
  {
    AscendingMultiset(keys);
    AscendingMultiset(keys - {k});
    assert keys == (keys - {k}) + {k};
  }

  /** The count of one key, split off the sum of all counts. */
  lemma WeightSplit(t: Hist, k: real)
    ensures WeightOf(t) == CountAt(t, k) + Weight(Ascending(t.Keys - {k}), t)
  {
    var rest := Ascending(t.Keys - {k});
    if k in t {
      AscendingWithout(t.Keys, k);
      WeightReordered([k] + rest, Ascending(t.Keys), t);
      assert ([k] + rest)[1..] == rest;
    } else {
      assert t.Keys - {k} == t.Keys;
    }
  }

  lemma WeightOneMore(t: Hist, sample: Sample)
    ensures WeightOf(AddedSample(t, sample)) == WeightOf(t) + sample.count
  {
    var u := AddedSample(t, sample);
    WeightSplit(t, sample.key);
    WeightSplit(u, sample.key);
    var rest := t.Keys - {sample.key};
    assert u.Keys - {sample.key} == rest;
    forall k | k in Ascending(rest) ensures CountAt(t, k) == CountAt(u, k) { AscendingMembers(rest, k); }
    WeightElsewhere(Ascending(rest), t, u);
  }

  // ----- merging hosts

  /** Two histograms added up. */
  function Joined(g: Hist, h: Hist): Hist {
    map k | k in g.Keys + h.Keys :: CountAt(g, k) + CountAt(h, k)
  }

  function MergedHist(items: seq<Metrics>, name: string): Hist {
    map key | key in Union(ItemKeys(name), items) :: Total(ItemCount(name, key), items)
  }

  /** The histogram g once the first i listed keys of h were added. */
  function AddedKeys(g: Hist, h: Hist, keys: seq<real>, i: nat): Hist
    requires i <= |keys|
  {
    if i == 0 then g
    else AddedSample(AddedKeys(g, h, keys, i - 1), Sample(keys[i - 1], CountAt(h, keys[i - 1])))
  }

  lemma {:induction false} AddedKeysCount(g: Hist, h: Hist, keys: seq<real>, i: nat, k: real)
    requires i <= |keys| && NoRepeats(keys, i)
    ensures AddedKeys(g, h, keys, i).Keys == g.Keys + Firsts(keys, i)
    ensures CountAt(AddedKeys(g, h, keys, i), k) == CountAt(g, k) + if k in Firsts(keys, i) then CountAt(h, k) else 0.0
  {
    if i > 0 {
      AddedKeysCount(g, h, keys, i - 1, k);
    }
  }

  lemma AllKeysAdded(g: Hist, h: Hist, keys: seq<real>)
    requires Walk(keys, h.Keys)
    ensures AddedKeys(g, h, keys, |keys|) == Joined(g, h)
  {
    AddedKeysCount(g, h, keys, |keys|, 0.0);
    forall k ensures CountAt(AddedKeys(g, h, keys, |keys|), k) == CountAt(Joined(g, h), k) {
      AddedKeysCount(g, h, keys, |keys|, k);
    }
    SameHist(AddedKeys(g, h, keys, |keys|), Joined(g, h));
  }

  lemma MergedCount(items: seq<Metrics>, name: string, key: real)
    ensures CountAt(MergedHist(items, name), key) == Total(ItemCount(name, key), items)
  {
    if key !in Union(ItemKeys(name), items) {
      CountOfMissingItem(items, name, key);
    }
  }

  lemma MergedHistOneMore(items: seq<Metrics>, item: Metrics, name: string)
    ensures MergedHist(items + [item], name) == Joined(MergedHist(items, name), HistOf(item, name))
  {
    var more := items + [item];
    var merged, joined := MergedHist(more, name), Joined(MergedHist(items, name), HistOf(item, name));
    assert more[..|more| - 1] == items;
    assert merged.Keys == joined.Keys;
    forall key | key in merged ensures CountAt(merged, key) == CountAt(joined, key) {
      MergedCount(items, name, key);
      assert ItemCount(name, key)(item) == CountAt(HistOf(item, name), key);
    }
    SameHist(merged, joined);
  }

  /** What float() makes of a text without a minus sign is not negative. */
  ghost predicate SensibleNumbers(s: Settings) {
    forall t :: '-' !in t && s.number(t).Some? ==> s.number(t).value >= 0.0
  }

  lemma {:induction false} WordsKeepOut(t: string, c: char)
    requires c !in t
    ensures forall i :: 0 <= i < |Words(t)| ==> c !in Words(t)[i]
    decreases |t|
  {
    StripLeftShortens(t);
    StripLeftKeepsOut(t, c);
    var rest := StripLeft(t);
    if rest != "" {
      StripLeftStarts(t);
      WordsKeepOut(rest[WordEnd(rest)..], c);
    }
  }

  lemma {:induction false} StripLeftKeepsOut(t: string, c: char)
    requires c !in t
    ensures c !in StripLeft(t)
  {
    if t != "" && IsSpace(t[0]) {
      StripLeftKeepsOut(t[1..], c);
    }
  }

  lemma {:induction false} ParsedCounts(s: Settings, name: string, tokens: seq<string>, key: real)
    requires SensibleNumbers(s) && forall i :: 0 <= i < |tokens| ==> '-' !in tokens[i]
    ensures SampleCount(ParseTokens(s, name, tokens), key) >= 0.0
  {
    if tokens != [] {
      ParsedCounts(s, name, tokens[1..], key);
      var first := ParseToken(s, name, tokens[0]);
      if first.Good? {
        assert first.sample.count >= 0.0;
        assert ([first.sample] + ParseTokens(s, name, tokens[1..]))[1..] == ParseTokens(s, name, tokens[1..]);
      }
    }
  }

  lemma LineCounts(s: Settings, delta: real, line: string, name: string, key: real)
    requires SensibleNumbers(s) && delta != 0.0
    ensures Count(ParseLine(s, delta, line), name, key) >= 0.0
  {
    var e := ParseLine(s, delta, line);
    if e.Timed? {
      var text := Replace(Strip(line), {'\t'}, ' ');
      var at := Find(text, ' ');
      var metrics := Strip(text[if at < |text| then at + 1 else at..]);
      var spaced := Replace(metrics, {',', '-', ':'}, ' ');
      WordsKeepOut(spaced, '-');
      ParsedCounts(s, e.name, Words(spaced), key);
    }
  }

  lemma {:induction false} TotalNonNegative<T>(f: T -> real, xs: seq<T>)
    requires forall x :: x in xs ==> f(x) >= 0.0
    ensures Total(f, xs) >= 0.0
  {
    if xs != [] {
      TotalNonNegative(f, xs[..|xs| - 1]);
    }
  }

  /** A minus sign never survives in a timings line, so the counts of a host are not negative. */
  lemma HostIsCountable(s: Settings, delta: real, lines: seq<string>, name: string)
    requires SensibleNumbers(s) && delta != 0.0
    ensures Countable(HistOf(HostResult(s, LineReader(s, delta), lines), name))
  {
    var read := LineReader(s, delta);
    forall key ensures Total(CountFor(read, name, key), lines) >= 0.0 {
      forall line | line in lines ensures CountFor(read, name, key)(line) >= 0.0 {
        LineCounts(s, delta, line, name, key);
      }
      TotalNonNegative(CountFor(read, name, key), lines);
    }
  }

  ghost predicate AllCountable(payload: seq<Metrics>) {
    forall i, name :: 0 <= i < |payload| ==> Countable(HistOf(payload[i], name))
  }

  lemma {:induction false} MergedCountable(payload: seq<Metrics>, name: string, k: nat)
    requires AllCountable(payload) && k <= |payload|
    ensures Countable(MergedHist(payload[..k], name))
  {
    if k > 0 {
      MergedCountable(payload, name, k - 1);
      MergedHistOneMore(payload[..k - 1], payload[k - 1], name);
      assert payload[..k] == payload[..k - 1] + [payload[k - 1]];
      assert Countable(HistOf(payload[k - 1], name));
    }
  }

  method AddTiming(timings: Hist, total: real, tmk: real, val: real) returns (aggTimings: Hist, count: real)
    ensures aggTimings == AddedSample(timings, Sample(tmk, val)) && count == total + val
  {
    if tmk in timings {
      aggTimings := timings[tmk := timings[tmk] + val];
    } else {
      aggTimings := timings[tmk := val];
    }
    count := total + val;
  }

  /** Adds one item's histogram to the aggregate, and its counts to the total. */
  method AddHist(timings: Hist, total: real, item: Hist) returns (aggTimings: Hist, count: real)
    requires total == WeightOf(timings)
    ensures aggTimings == Joined(timings, item) && count == WeightOf(aggTimings)
  {
    var keys := Listed(item.Keys);
    aggTimings, count := AddListed(timings, total, item, keys);
    AllKeysAdded(timings, item, keys);
  }

  method AddListed(timings: Hist, total: real, item: Hist, keys: seq<real>) returns (aggTimings: Hist, count: real)
    requires total == WeightOf(timings) && Walk(keys, item.Keys)
    ensures aggTimings == AddedKeys(timings, item, keys, |keys|) && count == WeightOf(aggTimings)
  {
    aggTimings, count := timings, total;
    for i := 0 to |keys|
      invariant aggTimings == AddedKeys(timings, item, keys, i) && count == WeightOf(aggTimings)
    {
      WalkStep(keys, i, |keys|);
      WeightOneMore(aggTimings, Sample(keys[i], item[keys[i]]));
      aggTimings, count := AddTiming(aggTimings, count, keys[i], item[keys[i]]);
    }
  }

  /** The item has nothing under this name, or a metric of this kind. */
  predicate HasKind(item: Metrics, name: string, timings: bool) {
    name in item ==> item[name].Timings? == timings
  }

  method MergeItem(payload: seq<Metrics>, i: nat, metric: string, timings: Hist, total: real)
    returns (aggTimings: Hist, count: real)
    requires i < |payload| && timings == MergedHist(payload[..i], metric) && total == WeightOf(timings)
    ensures aggTimings == MergedHist(payload[..i + 1], metric) && count == WeightOf(aggTimings)
  {
    MergedHistOneMore(payload[..i], payload[i], metric);
    assert payload[..i + 1] == payload[..i] + [payload[i]];
    aggTimings, count := AddHist(timings, total, HistOf(payload[i], metric));
  }

  /** Fails where an item has a number under the name of timings. */
  method MergeTimings(payload: seq<Metrics>, metric: string) returns (ok: bool, aggTimings: Hist, count: real)
    ensures ok <==> forall i :: 0 <= i < |payload| ==> HasKind(payload[i], metric, true)
    ensures ok ==> aggTimings == MergedHist(payload, metric) && count == WeightOf(aggTimings)
  {
    aggTimings, count := map[], 0.0;
    for i := 0 to |payload|
      invariant aggTimings == MergedHist(payload[..i], metric) && count == WeightOf(aggTimings)
      invariant forall j :: 0 <= j < i ==> HasKind(payload[j], metric, true)
    {
      if metric in payload[i] && payload[i][metric].Scalar? {
        return false, aggTimings, count;
      }
      aggTimings, count := MergeItem(payload, i, metric, aggTimings, count);
    }
    assert payload[..|payload|] == payload;
    return true, aggTimings, count;
  }

  /** Fails where an item has a histogram under the name of a sum. */
  method SumScalars(payload: seq<Metrics>, metric: string) returns (ok: bool, sum: real)
    ensures ok <==> forall i :: 0 <= i < |payload| ==> HasKind(payload[i], metric, false)
    ensures ok ==> sum == Total(ItemValue(metric), payload)
  {
    sum := 0.0;
    for i := 0 to |payload|
      invariant sum == Total(ItemValue(metric), payload[..i])
      invariant forall j :: 0 <= j < i ==> HasKind(payload[j], metric, false)
    {
      if metric in payload[i] && payload[i][metric].Timings? {
        return false, sum;
      }
      assert payload[..i + 1][..i] == payload[..i];
      sum := sum + ValueOf(payload[i], metric);
    }
    assert payload[..|payload|] == payload;
    return true, sum;
  }

  // ----- the finished report

  datatype Outcome = Summed(value: real) | QuantileValues(values: seq<real>)

  /** The name a metric is reported under: timings lose a leading @. */
  function FinalName(s: Settings, metric: string): string {
    if IsTimings(s, metric) && metric != "" && metric[0] == '@' then metric[1..] else metric
  }

  /** An empty histogram is not reported. */
  predicate Finishes(m: Metric) {
    m.Timings? ==> m.hist != map[]
  }

  ghost function Finished(s: Settings, m: Metric): Outcome
    requires Finishes(m)
  {
    match m
    case Scalar(value) => Summed(value)
    case Timings(hist) => QuantileValues(QuantilesOf(s.quantile, s.factor, hist, WeightOf(hist)))
  }

  /** Metric `from` is what the report says under this name. */
  ghost predicate ReportedFrom(s: Settings, merged: Metrics, name: string, outcome: Outcome, from: string) {
    from in merged && FinalName(s, from) == name && Finishes(merged[from]) && outcome == Finished(s, merged[from])
  }

  /**
   Everything reported stems from a merged metric, and every merged metric has its name reported.  Two
   metrics with one final name compete, and either may win.
   */
  ghost predicate Reports(s: Settings, merged: Metrics, names: set<string>, result: map<string, Outcome>)
    requires names <= merged.Keys
  {
    && (forall name :: name in result ==> exists from :: ReportedFrom(s, merged, name, result[name], from))
    && (forall metric :: metric in names && Finishes(merged[metric]) ==> FinalName(s, metric) in result)
  }

  lemma ReportsOneMore(s: Settings, merged: Metrics, names: set<string>, result: map<string, Outcome>, metric: string)
    requires names <= merged.Keys && metric in merged && Reports(s, merged, names, result)
    ensures !Finishes(merged[metric]) ==> Reports(s, merged, names + {metric}, result)
    ensures Finishes(merged[metric]) ==>
      Reports(s, merged, names + {metric}, result[FinalName(s, metric) := Finished(s, merged[metric])])
  {
    if Finishes(merged[metric]) {
      var name, outcome := FinalName(s, metric), Finished(s, merged[metric]);
      assert ReportedFrom(s, merged, name, outcome, metric);
      var after := result[name := outcome];
      forall n | n in after ensures exists from :: ReportedFrom(s, merged, n, after[n], from) {
        if n != name {
          var from :| ReportedFrom(s, merged, n, result[n], from);
        }
      }
    }
  }

  /** Metrics that are reported under one name agree on what is reported. */
  ghost predicate Agreeing(s: Settings, merged: Metrics) {
    forall m, n ::
      m in merged && n in merged && Finishes(merged[m]) && Finishes(merged[n]) && FinalName(s, m) == FinalName(s, n) ==>
      Finished(s, merged[m]) == Finished(s, merged[n])
  }

  lemma ReportIsUnique(s: Settings, merged: Metrics, x: map<string, Outcome>, y: map<string, Outcome>)
    requires Reports(s, merged, merged.Keys, x) && Reports(s, merged, merged.Keys, y) && Agreeing(s, merged)
    ensures x == y
  {
    ReportIncludes(s, merged, x, y);
    ReportIncludes(s, merged, y, x);
  }

  lemma ReportIncludes(s: Settings, merged: Metrics, x: map<string, Outcome>, y: map<string, Outcome>)
    requires Reports(s, merged, merged.Keys, x) && Reports(s, merged, merged.Keys, y) && Agreeing(s, merged)
    ensures forall name :: name in x ==> name in y && y[name] == x[name]
  {
    forall name | name in x ensures name in y && y[name] == x[name] {
      var from :| ReportedFrom(s, merged, name, x[name], from);
      assert FinalName(s, from) in y;
      var other :| ReportedFrom(s, merged, name, y[name], other);
    }
  }

  lemma {:induction false} SomeReport(s: Settings, merged: Metrics, names: set<string>)
    returns (result: map<string, Outcome>)
    requires names <= merged.Keys
    ensures Reports(s, merged, names, result)
    decreases |names|
  {
    result := map[];
    if names != {} {
      var metric := SomeMember(names);
      var rest := SomeReport(s, merged, names - {metric});
      ReportsOneMore(s, merged, names - {metric}, rest, metric);
      assert names - {metric} + {metric} == names;
      result := if Finishes(merged[metric]) then rest[FinalName(s, metric) := Finished(s, merged[metric])] else rest;
    }
  }

  /** A metric that comes up last has the last word. */
  lemma ReportWithLast(s: Settings, merged: Metrics, metric: string) returns (result: map<string, Outcome>)
    requires metric in merged && Finishes(merged[metric])
    ensures Reports(s, merged, merged.Keys, result)
    ensures FinalName(s, metric) in result && result[FinalName(s, metric)] == Finished(s, merged[metric])
  {
    var rest := SomeReport(s, merged, merged.Keys - {metric});
    ReportsOneMore(s, merged, merged.Keys - {metric}, rest, metric);
    assert merged.Keys - {metric} + {metric} == merged.Keys;
    result := rest[FinalName(s, metric) := Finished(s, merged[metric])];
  }

  ghost predicate Determined(s: Settings, merged: Metrics) {
    forall x, y :: Reports(s, merged, merged.Keys, x) && Reports(s, merged, merged.Keys, y) ==> x == y
  }

  /** The report does not depend on the order of the metrics exactly if metrics under one final name agree. */
  lemma ReportIsDetermined(s: Settings, merged: Metrics)
    ensures Determined(s, merged) <==> Agreeing(s, merged)
  {
    if Agreeing(s, merged) {
      forall x, y | Reports(s, merged, merged.Keys, x) && Reports(s, merged, merged.Keys, y) ensures x == y {
        ReportIsUnique(s, merged, x, y);
      }
    }
    if Determined(s, merged) {
      forall m, n |
        m in merged && n in merged && Finishes(merged[m]) && Finishes(merged[n]) && FinalName(s, m) == FinalName(s, n)
        ensures Finished(s, merged[m]) == Finished(s, merged[n])
      {
        var x := ReportWithLast(s, merged, m);
        var y := ReportWithLast(s, merged, n);
        assert x == y;
      }
    }
  }

  /** No item names a metric that another one, or itself, names with an at sign in front. */
  ghost predicate NoAtSignTwins(payload: seq<Metrics>) {
    forall i, j, name ::
      0 <= i < |payload| && 0 <= j < |payload| && name in payload[i] ==> "@" + name !in payload[j]
  }

  lemma SameFinalName(s: Settings, m: string, n: string)
    requires FinalName(s, m) == FinalName(s, n) && m != n
    ensures m == "@" + n || n == "@" + m
  {
    if FinalName(s, m) != m {
      assert m == "@" + m[1..];
    }
    if FinalName(s, n) != n {
      assert n == "@" + n[1..];
    }
  }

  /** Then the report is determined by the payload, whatever the metrics hold. */
  lemma NoTwinsAgree(s: Settings, payload: seq<Metrics>)
    requires NoAtSignTwins(payload)
    ensures Agreeing(s, Merge(s, payload)) && Determined(s, Merge(s, payload))
  {
    var merged := Merge(s, payload);
    forall m, n | m in merged && n in merged && FinalName(s, m) == FinalName(s, n) ensures m == n {
      UnionMembers(ItemNames(), payload, m);
      UnionMembers(ItemNames(), payload, n);
      var i :| 0 <= i < |payload| && m in ItemNames()(payload[i]);
      var j :| 0 <= j < |payload| && n in ItemNames()(payload[j]);
      assert m in payload[i] && n in payload[j];
      if m != n {
        SameFinalName(s, m, n);
      }
    }
    ReportIsDetermined(s, merged);
  }

  // ----- the group

  /** No step of the merge raises on this metric. */
  predicate Mergeable(s: Settings, payload: seq<Metrics>, metric: string) {
    metric != "" && forall i :: 0 <= i < |payload| ==> HasKind(payload[i], metric, IsTimings(s, metric))
  }

  /** Every metric has a name, and the kind its name says. */
  ghost predicate Proper(s: Settings, item: Metrics) {
    WellTyped(s, item) && "" !in item
  }

  lemma AllProper(s: Settings, payload: seq<Metrics>)
    ensures (forall name :: name in Union(ItemNames(), payload) ==> Mergeable(s, payload, name))
      <==> forall i :: 0 <= i < |payload| ==> Proper(s, payload[i])
  {
    if forall i :: 0 <= i < |payload| ==> Proper(s, payload[i]) {
      forall name | name in Union(ItemNames(), payload) ensures Mergeable(s, payload, name) {
        UnionMembers(ItemNames(), payload, name);
      }
    }
    if forall name :: name in Union(ItemNames(), payload) ==> Mergeable(s, payload, name) {
      forall i | 0 <= i < |payload| ensures Proper(s, payload[i]) {
        forall name | name in payload[i] ensures name != "" && (payload[i][name].Timings? <==> IsTimings(s, name)) {
          UnionMembers(ItemNames(), payload, name);
          assert name in ItemNames()(payload[i]);
          assert HasKind(payload[i], name, IsTimings(s, name));
        }
      }
    }
  }

  /**
   Refuses an empty payload, and raises where an item is not as aggregate_host makes them; everything
   else is reported.
   */
  method AggregateGroup(s: Settings, payload: seq<Metrics>) returns (result: Option<map<string, Outcome>>)
    ensures result.Some? <==> payload != [] && forall i :: 0 <= i < |payload| ==> Proper(s, payload[i])
    ensures result.Some? ==> Reports(s, Merge(s, payload), Merge(s, payload).Keys, result.value)
  {
    if payload == [] {
      return None;
    }
    var namesOfMetrics := NamesOfMetrics(payload);
    AllProper(s, payload);
    var ok, report := ReportAll(s, payload, namesOfMetrics);
    return if ok then Some(report) else None;
  }

  method NamesOfMetrics(payload: seq<Metrics>) returns (names: set<string>)
    ensures names == Union(ItemNames(), payload)
  {
    names := {};
    for i := 0 to |payload|
      invariant names == Union(ItemNames(), payload[..i])
    {
      assert payload[..i + 1][..i] == payload[..i];
      names := names + payload[i].Keys;
    }
    assert payload[..|payload|] == payload;
  }

  /** Reports the metrics in any order, until one of them raises. */
  method ReportAll(s: Settings, payload: seq<Metrics>, names: set<string>)
    returns (ok: bool, report: map<string, Outcome>)
    requires names == Union(ItemNames(), payload)
    ensures ok <==> forall name :: name in names ==> Mergeable(s, payload, name)
    ensures ok ==> Reports(s, Merge(s, payload), Merge(s, payload).Keys, report)
  {
    ghost var merged := Merge(s, payload);
    report := map[];
    var rest := names;
    while rest != {}
      invariant rest <= merged.Keys == names
      invariant forall name :: name in names - rest ==> Mergeable(s, payload, name)
      invariant Reports(s, merged, names - rest, report)
      decreases |rest|
    {
      var metric :| metric in rest;
      ReportsOneMore(s, merged, names - rest, report, metric);
      assert names - (rest - {metric}) == names - rest + {metric};
      rest := rest - {metric};
      ok, report := ReportMetric(s, payload, metric, report, merged);
      if !ok {
        return;
      }
    }
    ok := true;
  }

  method ReportMetric(s: Settings, payload: seq<Metrics>, metric: string, report: map<string, Outcome>,
                      ghost merged: Metrics)
    returns (ok: bool, more: map<string, Outcome>)
    requires metric in merged && merged[metric] == MergedMetric(s, payload, metric)
    ensures ok <==> Mergeable(s, payload, metric)
    ensures ok ==>
      more == if Finishes(merged[metric]) then report[FinalName(s, metric) := Finished(s, merged[metric])] else report
  {
    more := report;
    if metric == "" {
      return false, more;
    }
    if IsTimings(s, metric) {
      var aggTimings, count;
      ok, aggTimings, count := MergeTimings(payload, metric);
      if !ok || aggTimings == map[] {
        return;
      }
      var quantiles := CalculateQuantiles(s.quantile, s.factor, aggTimings, count);
      var name := if metric[0] == '@' then metric[1..] else metric;
      more := report[name := QuantileValues(quantiles)];
    } else {
      var metricSum;
      ok, metricSum := SumScalars(payload, metric);
      more := report[metric := Summed(metricSum)];
    }
  }

  // ----- what the group's report says

  /** The quantiles of a histogram, read off its expanded list where all its counts are whole. */
  ghost predicate HasQuantiles(s: Settings, hist: Hist, outcome: Outcome) {
    && outcome.QuantileValues? && |outcome.values| == |s.quantile|
    && (WholeCounts(hist) ==>
        var list := ExpandedList(hist);
        forall i :: 0 <= i < |s.quantile| ==>
          AnswersFrom(list, |list| as real, s.quantile[i], s.factor, outcome.values[i]))
  }

  lemma FinishedHasQuantiles(s: Settings, hist: Hist)
    requires hist != map[]
    ensures HasQuantiles(s, hist, Finished(s, Timings(hist)))
  {
    if WholeCounts(hist) {
      ListSize(hist);
      AllAnswers(s.quantile, s.factor, hist, WeightOf(hist));
    }
  }

  /** Without such twins a metric's outcome is the one reported under its final name. */
  lemma ReportedIs(s: Settings, payload: seq<Metrics>, result: map<string, Outcome>, metric: string)
    requires var merged := Merge(s, payload);
      && Reports(s, merged, merged.Keys, result) && NoAtSignTwins(payload)
      && metric in merged && Finishes(merged[metric])
    ensures FinalName(s, metric) in result && result[FinalName(s, metric)] == Finished(s, Merge(s, payload)[metric])
  {
    var merged := Merge(s, payload);
    NoTwinsAgree(s, payload);
    var name := FinalName(s, metric);
    assert name in result;
    var from :| ReportedFrom(s, merged, name, result[name], from);
  }

  /** A name that some item holds is a name of the merged metrics. */
  lemma MergedNames(s: Settings, payload: seq<Metrics>, i: nat, name: string)
    requires i < |payload| && name in payload[i]
    ensures name in Merge(s, payload)
  {
    UnionMembers(ItemNames(), payload, name);
    assert name in ItemNames()(payload[i]);
  }

  /**
   Packed timings `@base` are reported as `base`: the quantiles of the histogram that adds up those of
   all items.  Nothing is left under the name with the at sign.
   */
  lemma PackedTimingsReported(s: Settings, payload: seq<Metrics>, result: map<string, Outcome>, i: nat, base: string)
    requires Reports(s, Merge(s, payload), Merge(s, payload).Keys, result) && NoAtSignTwins(payload)
    requires i < |payload| && "@" + base in payload[i]
    ensures "@" + base !in result
    ensures var hist := MergedHist(payload, "@" + base);
      hist != map[] ==> base in result && HasQuantiles(s, hist, result[base])
  {
    var name, merged := "@" + base, Merge(s, payload);
    var hist := MergedHist(payload, name);
    MergedNames(s, payload, i, name);
    assert name[0] == '@' && name[1..] == base;
    assert merged[name] == Timings(hist);
    if hist != map[] {
      ReportedIs(s, payload, result, name);
      FinishedHasQuantiles(s, hist);
    }
    NothingUnderTheSign(s, payload, result, i, base);
  }

  lemma StrippedOrNot(s: Settings, from: string)
    ensures from == FinalName(s, from) || (from == "@" + FinalName(s, from) && IsTimings(s, from))
  {}

  /** What is reported under a name stems from a metric of some item, under this name or the one with the at sign. */
  lemma ReportedStems(s: Settings, payload: seq<Metrics>, result: map<string, Outcome>, name: string)
    returns (from: string, i: nat)
    requires Reports(s, Merge(s, payload), Merge(s, payload).Keys, result) && name in result
    ensures i < |payload| && from in payload[i] && FinalName(s, from) == name
    ensures from == name || from == "@" + name
  {
    var source :| ReportedFrom(s, Merge(s, payload), name, result[name], source);
    UnionMembers(ItemNames(), payload, source);
    var at :| 0 <= at < |payload| && source in ItemNames()(payload[at]);
    StrippedOrNot(s, source);
    from, i := source, at;
  }

  lemma NothingUnderTheSign(s: Settings, payload: seq<Metrics>, result: map<string, Outcome>, i: nat, base: string)
    requires Reports(s, Merge(s, payload), Merge(s, payload).Keys, result) && NoAtSignTwins(payload)
    requires i < |payload| && "@" + base in payload[i]
    ensures "@" + base !in result
  {
    var name := "@" + base;
    assert name[0] == '@' && name[1..] == base && FinalName(s, name) == base != name;
    if name in result {
      var from, j := ReportedStems(s, payload, result, name);
    }
  }

  /** Every other name is reported as it is: timings by their quantiles, and anything else as its sum over all items. */
  lemma OthersReported(s: Settings, payload: seq<Metrics>, result: map<string, Outcome>, i: nat, name: string)
    requires Reports(s, Merge(s, payload), Merge(s, payload).Keys, result) && NoAtSignTwins(payload)
    requires i < |payload| && name in payload[i] && name != "" && name[0] != '@'
    ensures Contains(name, s.timingsIs) ==> var hist := MergedHist(payload, name);
      hist != map[] ==> name in result && HasQuantiles(s, hist, result[name])
    ensures !Contains(name, s.timingsIs) ==>
      name in result && result[name] == Summed(Total(ItemValue(name), payload))
  {
    MergedNames(s, payload, i, name);
    if Contains(name, s.timingsIs) {
      var hist := MergedHist(payload, name);
      assert Merge(s, payload)[name] == Timings(hist);
      if hist != map[] {
        ReportedIs(s, payload, result, name);
        FinishedHasQuantiles(s, hist);
      }
    } else {
      ReportedIs(s, payload, result, name);
    }
  }

  /** Nothing else is reported. */
  lemma NothingElseReported(s: Settings, payload: seq<Metrics>, result: map<string, Outcome>, name: string)
    requires Reports(s, Merge(s, payload), Merge(s, payload).Keys, result) && name in result
    ensures exists i :: 0 <= i < |payload| && (name in payload[i] || "@" + name in payload[i])
  {
    var from, i := ReportedStems(s, payload, result, name);
  }

  // ----- what hosts hand to the group

  lemma {:induction false} StripRightKeeps(t: string)
    requires t != "" && !IsSpace(t[0])
    ensures StripRight(t) != "" && StripRight(t)[0] == t[0]
  {
    if IsSpace(t[|t| - 1]) {
      StripRightKeeps(t[..|t| - 1]);
    }
  }

  lemma NamesAreGiven(s: Settings, delta: real, rawLine: string)
    requires delta != 0.0
    ensures var e := ParseLine(s, delta, rawLine); !e.Nothing? ==> e.name != ""
  {
    var line := Replace(Strip(rawLine), {'\t'}, ' ');
    if line != "" {
      StripLeftStarts(StripRight(rawLine));
      var first := line[..Find(line, ' ')];
      assert line[0] == Strip(rawLine)[0];
      assert first != "" && first[0] == line[0];
      StripRightKeeps(first);
    }
  }

  /** What aggregate_host returns is accepted by aggregate_group. */
  lemma HostIsProper(s: Settings, delta: real, lines: seq<string>)
    requires delta != 0.0
    ensures Proper(s, HostResult(s, LineReader(s, delta), lines))
  {
    var read := LineReader(s, delta);
    HostIsTyped(s, read, lines);
    UnionMembers(NamesFor(read), lines, "");
    forall i | 0 <= i < |lines| ensures "" !in NamesFor(read)(lines[i]) { NamesAreGiven(s, delta, lines[i]); }
  }

  /** On what hosts return, a group's quantiles are those of the merged histogram: none is inherited. */
  lemma GroupQuantiles(s: Settings, payload: seq<Metrics>, name: string, i: nat)
    requires AllCountable(payload) && MergedHist(payload, name) != map[] && i < |s.quantile|
    ensures var t := MergedHist(payload, name);
      QuantilesOf(s.quantile, s.factor, t, WeightOf(t))[i] == s.factor * QuantileAt(t, WeightOf(t), s.quantile[i])
  {
    MergedCountable(payload, name, |payload|);
    assert payload[..|payload|] == payload;
    NothingInherited(s.quantile, s.factor, MergedHist(payload, name), i);
  }

  /**
   However a payload's lines are dealt out to hosts, the group reports what it would report of one
   host that saw them all, provided metrics under one final name agree.
   */
  lemma ReportIgnoresSplit(s: Settings, delta: real, parts: seq<seq<string>>, payload: seq<string>,
                           x: map<string, Outcome>, y: map<string, Outcome>)
    requires delta != 0.0 && multiset(Flatten(parts)) == multiset(payload)
    requires var split := Merge(s, Each(Hosting(s, LineReader(s, delta)), parts)); Reports(s, split, split.Keys, x)
    requires var whole := Merge(s, [HostResult(s, LineReader(s, delta), payload)]);
      Reports(s, whole, whole.Keys, y) && Agreeing(s, whole)
    ensures x == y
  {
    TwoStagesEqualOne(s, delta, parts, payload);
    ReportIsUnique(s, Merge(s, [HostResult(s, LineReader(s, delta), payload)]), x, y);
  }
}
