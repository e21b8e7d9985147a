/**
 The Multimetrics aggregator: lines of text become sums and compact timing histograms per host,
 hosts are merged into groups, and histograms are read off as quantiles.

 Numbers are exact.  What Python's float() accepts is a parameter: `number` yields None where
 float() raises.
 */
module Multimetrics {
  import opened Wrappers
  import opened Text

  // ----- what one line says

  datatype Settings = Settings(quantile: seq<real>, rps: bool, timingsIs: string, factor: real,
                               number: string -> Option<real>)

  /** A key of a timing histogram and how often it was seen. */
  datatype Sample = Sample(key: real, count: real)

  datatype Token = Skip | Bad | Good(sample: Sample)

  /** A line's effect: of a malformed timings line what precedes the fault, of a malformed sum nothing. */
  datatype Effect = Nothing | Adds(name: string, value: real) | Timed(name: string, samples: seq<Sample>)

  predicate IsTimings(s: Settings, name: string) {
    (name != "" && name[0] == '@') || Contains(name, s.timingsIs)
  }

  /** One timing: `value` alone, or `value@count` under a name that starts with @. */
  function ParseToken(s: Settings, name: string, token: string): Token {
    if name != "" && name[0] == '@' then
      var at := Find(token, '@');
      if at == |token| then Skip
      else if '@' in token[at + 1..] then Bad
      else if at == 0 then Skip
      else match (s.number(token[at + 1..]), s.number(token[..at]))
        case (Some(count), Some(key)) => Good(Sample(key, count))
        case _ => Bad
    else match s.number(token)
      case Some(key) => Good(Sample(key, 1.0))
      case None => Bad
  }

  /** The samples of the tokens up to the first that cannot be parsed. */
  function ParseTokens(s: Settings, name: string, tokens: seq<string>): seq<Sample> {
    if tokens == [] then []
    else match ParseToken(s, name, tokens[0])
      case Bad => []
      case Skip => ParseTokens(s, name, tokens[1..])
      case Good(sample) => [sample] + ParseTokens(s, name, tokens[1..])
  }

  /** The sum of the tokens, unless one of them is not a number. */
  function SumTokens(s: Settings, tokens: seq<string>): Option<real> {
    if tokens == [] then Some(0.0)
    else match (SumTokens(s, tokens[..|tokens| - 1]), s.number(tokens[|tokens| - 1]))
      case (Some(sum), Some(x)) => Some(sum + x)
      case _ => None
  }

  function Rate(s: Settings, value: real, delta: real): real
    requires delta != 0.0
  {
    if s.rps then value / delta else value
  }

  const FORBIDDEN: set<char> := {'<', '>', ';', '\\'}

  function ParseLine(s: Settings, delta: real, rawLine: string): Effect
    requires delta != 0.0
  {
    var line := Replace(Strip(rawLine), {'\t'}, ' ');
    var at := Find(line, ' ');
    var name := Strip(line[..at]);
    var metrics := Strip(line[if at < |line| then at + 1 else at..]);
    if line == "" || exists c :: c in name && c in FORBIDDEN then Nothing
    else if IsTimings(s, name) then
      var spaced := Replace(metrics, {',', '-', ':'}, ' ');
      if spaced == "" then Nothing else Timed(name, ParseTokens(s, name, Words(spaced)))
    else match SumTokens(s, Words(metrics))
      case Some(sum) => Adds(name, Rate(s, sum, delta))
      case None => Nothing
  }

  // ----- what many lines say together

  datatype Metric = Scalar(value: real) | Timings(hist: map<real, real>)
  type Metrics = map<string, Metric>

  /** What one effect contributes to a sum. */
  function Value(e: Effect, name: string): real {
    if e.Adds? && e.name == name then e.value else 0.0
  }

  function SampleCount(samples: seq<Sample>, key: real): real {
    if samples == [] then 0.0
    else (if samples[0].key == key then samples[0].count else 0.0) + SampleCount(samples[1..], key)
  }

  function SampleKeys(samples: seq<Sample>): set<real> {
    set i | 0 <= i < |samples| :: samples[i].key
  }

  /** What one effect contributes to the count of a histogram key. */
  function Count(e: Effect, name: string, key: real): real {
    if e.Timed? && e.name == name then SampleCount(e.samples, key) else 0.0
  }

  function KeysOf(e: Effect, name: string): set<real> {
    if e.Timed? && e.name == name then SampleKeys(e.samples) else {}
  }

  function NamesOf(e: Effect): set<string> {
    if e.Nothing? then {} else {e.name}
  }

  /** The sum of f over a list, and the union of g over a list. */
  function Total<T>(f: T -> real, xs: seq<T>): real {
    if xs == [] then 0.0 else Total(f, xs[..|xs| - 1]) + f(xs[|xs| - 1])
  }

  function Union<T, U(==)>(g: T -> set<U>, xs: seq<T>): set<U> {
    if xs == [] then {} else Union(g, xs[..|xs| - 1]) + g(xs[|xs| - 1])
  }

  lemma {:induction false} TotalConcat<T>(f: T -> real, xs: seq<T>, ys: seq<T>)
    ensures Total(f, xs + ys) == Total(f, xs) + Total(f, ys)
  {
    if ys == [] {
      assert xs + ys == xs;
    } else {
      assert (xs + ys)[..|xs + ys| - 1] == xs + ys[..|ys| - 1];
      TotalConcat(f, xs, ys[..|ys| - 1]);
    }
  }

  lemma {:induction false} UnionConcat<T, U>(g: T -> set<U>, xs: seq<T>, ys: seq<T>)
    ensures Union(g, xs + ys) == Union(g, xs) + Union(g, ys)
  {
    if ys == [] {
      assert xs + ys == xs;
    } else {
      assert (xs + ys)[..|xs + ys| - 1] == xs + ys[..|ys| - 1];
      UnionConcat(g, xs, ys[..|ys| - 1]);
    }
  }

  lemma {:induction false} TotalReordered<T>(f: T -> real, xs: seq<T>, ys: seq<T>)
    requires multiset(xs) == multiset(ys)
    ensures Total(f, xs) == Total(f, ys)
    decreases |xs|
  {
    if xs == [] {
      assert |multiset(ys)| == |ys| == 0;
    } else {
      var n := |xs| - 1;
      assert xs == xs[..n] + [xs[n]];
      assert xs[n] in multiset(ys);
      var i :| 0 <= i < |ys| && ys[i] == xs[n];
      var front, back := ys[..i], ys[i + 1..];
      assert ys == front + ([ys[i]] + back);
      TotalConcat(f, front, [ys[i]] + back);
      TotalConcat(f, [ys[i]], back);
      TotalConcat(f, front, back);
      assert multiset(front + back) == multiset(ys) - multiset{ys[i]};
      TotalReordered(f, xs[..n], front + back);
    }
  }

  lemma {:induction false} UnionMembers<T, U>(g: T -> set<U>, xs: seq<T>, u: U)
    ensures u in Union(g, xs) <==> exists i :: 0 <= i < |xs| && u in g(xs[i])
  {
    if xs != [] {
      var n := |xs| - 1;
      UnionMembers(g, xs[..n], u);
      if i :| 0 <= i < |xs| && u in g(xs[i]) {
        if i < n { assert xs[..n][i] == xs[i]; }
      }
    }
  }

  lemma UnionIncludes<T, U>(g: T -> set<U>, xs: seq<T>, ys: seq<T>)
    requires multiset(xs) == multiset(ys)
    ensures Union(g, xs) <= Union(g, ys)
  {
    forall u | u in Union(g, xs) ensures u in Union(g, ys) {
      UnionMembers(g, xs, u);
      UnionMembers(g, ys, u);
      var i :| 0 <= i < |xs| && u in g(xs[i]);
      assert xs[i] in multiset(ys);
      var j :| 0 <= j < |ys| && ys[j] == xs[i];
      assert u in g(ys[j]);
    }
  }

  lemma UnionReordered<T, U>(g: T -> set<U>, xs: seq<T>, ys: seq<T>)
    requires multiset(xs) == multiset(ys)
    ensures Union(g, xs) == Union(g, ys)
  {
    UnionIncludes(g, xs, ys);
    UnionIncludes(g, ys, xs);
  }

  // How lines are read is a parameter here: what holds of adding up effects does not depend on it.
  type Reader = string -> Effect

  function LineReader(s: Settings, delta: real): Reader
    requires delta != 0.0
  {
    (line: string) => ParseLine(s, delta, line)
  }

  function ValueFor(read: Reader, name: string): string -> real {
    (line: string) => Value(read(line), name)
  }

  function CountFor(read: Reader, name: string, key: real): string -> real {
    (line: string) => Count(read(line), name, key)
  }

  function KeysFor(read: Reader, name: string): string -> set<real> {
    (line: string) => KeysOf(read(line), name)
  }

  function NamesFor(read: Reader): string -> set<string> {
    (line: string) => NamesOf(read(line))
  }

  /** The host's result for one metric, read off all lines at once. */
  function HostMetric(s: Settings, read: Reader, lines: seq<string>, name: string): Metric {
    if IsTimings(s, name)
    then Timings(map key | key in Union(KeysFor(read, name), lines) :: Total(CountFor(read, name, key), lines))
    else Scalar(Total(ValueFor(read, name), lines))
  }

  function HostResult(s: Settings, read: Reader, lines: seq<string>): Metrics {
    map name | name in Union(NamesFor(read), lines) :: HostMetric(s, read, lines, name)
  }

  // ----- merging hosts

  function ItemValue(name: string): Metrics -> real {
    (m: Metrics) => if name in m && m[name].Scalar? then m[name].value else 0.0
  }

  function ItemCount(name: string, key: real): Metrics -> real {
    (m: Metrics) => if name in m && m[name].Timings? && key in m[name].hist then m[name].hist[key] else 0.0
  }

  function ItemKeys(name: string): Metrics -> set<real> {
    (m: Metrics) => if name in m && m[name].Timings? then m[name].hist.Keys else {}
  }

  function ItemNames(): Metrics -> set<string> {
    (m: Metrics) => m.Keys
  }

  function MergedMetric(s: Settings, items: seq<Metrics>, name: string): Metric {
    if IsTimings(s, name)
    then Timings(map key | key in Union(ItemKeys(name), items) :: Total(ItemCount(name, key), items))
    else Scalar(Total(ItemValue(name), items))
  }

  /** What aggregate_group has merged before it turns histograms into quantiles. */
  function Merge(s: Settings, items: seq<Metrics>): Metrics {
    map name | name in Union(ItemNames(), items) :: MergedMetric(s, items, name)
  }

  function Flatten<T>(parts: seq<seq<T>>): seq<T> {
    if parts == [] then [] else Flatten(parts[..|parts| - 1]) + parts[|parts| - 1]
  }

  function Each<A, B>(r: seq<A> -> B, parts: seq<seq<A>>): (bs: seq<B>)
    ensures |bs| == |parts|
  {
    if parts == [] then [] else Each(r, parts[..|parts| - 1]) + [r(parts[|parts| - 1])]
  }

  lemma {:induction false} TotalOfParts<A, B>(f: A -> real, h: B -> real, r: seq<A> -> B, parts: seq<seq<A>>)
    requires forall p: seq<A> :: p in parts ==> h(r(p)) == Total(f, p)
    ensures Total(h, Each(r, parts)) == Total(f, Flatten(parts))
  {
    if parts != [] {
      var init, last := parts[..|parts| - 1], parts[|parts| - 1];
      assert forall p :: p in init ==> p in parts;
      TotalOfParts(f, h, r, init);
      TotalConcat(f, Flatten(init), last);
      assert Each(r, parts)[..|parts| - 1] == Each(r, init);
    }
  }

  lemma {:induction false} UnionOfParts<A, B, U>(f: A -> set<U>, h: B -> set<U>, r: seq<A> -> B, parts: seq<seq<A>>)
    requires forall p: seq<A> :: p in parts ==> h(r(p)) == Union(f, p)
    ensures Union(h, Each(r, parts)) == Union(f, Flatten(parts))
  {
    if parts != [] {
      var init, last := parts[..|parts| - 1], parts[|parts| - 1];
      assert forall p :: p in init ==> p in parts;
      UnionOfParts(f, h, r, init);
      UnionConcat(f, Flatten(init), last);
      assert Each(r, parts)[..|parts| - 1] == Each(r, init);
    }
  }

  lemma {:induction false} SampleCountOfMissing(samples: seq<Sample>, key: real)
    requires key !in SampleKeys(samples)
    ensures SampleCount(samples, key) == 0.0
  {
    if samples != [] {
      assert samples[0].key in SampleKeys(samples);
      forall i | 0 <= i < |samples[1..]| ensures samples[1..][i].key != key {
        assert samples[i + 1].key in SampleKeys(samples);
      }
      SampleCountOfMissing(samples[1..], key);
    }
  }

  lemma {:induction false} TotalZero<T>(f: T -> real, xs: seq<T>)
    requires forall x :: x in xs ==> f(x) == 0.0
    ensures Total(f, xs) == 0.0
  {
    if xs != [] {
      TotalZero(f, xs[..|xs| - 1]);
    }
  }

  lemma CountOfMissing(read: Reader, lines: seq<string>, name: string, key: real)
    requires key !in Union(KeysFor(read, name), lines)
    ensures Total(CountFor(read, name, key), lines) == 0.0
  {
    UnionMembers(KeysFor(read, name), lines, key);
    forall line | line in lines ensures CountFor(read, name, key)(line) == 0.0 {
      var i :| 0 <= i < |lines| && lines[i] == line;
      assert key !in KeysFor(read, name)(lines[i]);
      var e := read(line);
      if e.Timed? && e.name == name {
        SampleCountOfMissing(e.samples, key);
      }
    }
    TotalZero(CountFor(read, name, key), lines);
  }

  lemma NothingOfMissing(read: Reader, lines: seq<string>, name: string)
    requires name !in Union(NamesFor(read), lines)
    ensures Union(KeysFor(read, name), lines) == {}
    ensures Total(ValueFor(read, name), lines) == 0.0
  {
    UnionMembers(NamesFor(read), lines, name);
    forall line | line in lines ensures name !in NamesOf(read(line)) {
      var i :| 0 <= i < |lines| && lines[i] == line;
      assert name !in NamesFor(read)(lines[i]);
    }
    TotalZero(ValueFor(read, name), lines);
    forall key ensures key !in Union(KeysFor(read, name), lines) {
      UnionMembers(KeysFor(read, name), lines, key);
    }
  }

  // ----- two stages give what one stage gives

  function Hosting(s: Settings, read: Reader): seq<string> -> Metrics {
    (lines: seq<string>) => HostResult(s, read, lines)
  }

  function Merging(s: Settings): seq<Metrics> -> Metrics {
    (items: seq<Metrics>) => Merge(s, items)
  }

  lemma HostTotals(s: Settings, read: Reader, lines: seq<string>, name: string)
    ensures ItemNames()(HostResult(s, read, lines)) == Union(NamesFor(read), lines)
    ensures !IsTimings(s, name) ==> ItemValue(name)(HostResult(s, read, lines)) == Total(ValueFor(read, name), lines)
    ensures IsTimings(s, name) ==> ItemKeys(name)(HostResult(s, read, lines)) == Union(KeysFor(read, name), lines)
    ensures IsTimings(s, name) ==>
      forall key :: ItemCount(name, key)(HostResult(s, read, lines)) == Total(CountFor(read, name, key), lines)
  {
    var m := HostResult(s, read, lines);
    if name !in m {
      NothingOfMissing(read, lines, name);
    }
    if IsTimings(s, name) {
      forall key ensures ItemCount(name, key)(m) == Total(CountFor(read, name, key), lines) {
        if key !in Union(KeysFor(read, name), lines) {
          CountOfMissing(read, lines, name, key);
        }
      }
    }
  }

  lemma MergeTotals(s: Settings, items: seq<Metrics>, name: string)
    ensures ItemNames()(Merge(s, items)) == Union(ItemNames(), items)
    ensures !IsTimings(s, name) ==> ItemValue(name)(Merge(s, items)) == Total(ItemValue(name), items)
    ensures IsTimings(s, name) ==> ItemKeys(name)(Merge(s, items)) == Union(ItemKeys(name), items)
    ensures IsTimings(s, name) ==>
      forall key :: ItemCount(name, key)(Merge(s, items)) == Total(ItemCount(name, key), items)
  {
    var m := Merge(s, items);
    if name !in m {
      UnionMembers(ItemNames(), items, name);
      forall item | item in items ensures name !in item {
        var i :| 0 <= i < |items| && items[i] == item;
        assert name !in ItemNames()(items[i]);
      }
      TotalZero(ItemValue(name), items);
      forall key ensures key !in Union(ItemKeys(name), items) { UnionMembers(ItemKeys(name), items, key); }
    }
    forall key | key !in Union(ItemKeys(name), items) ensures Total(ItemCount(name, key), items) == 0.0 {
      CountOfMissingItem(items, name, key);
    }
  }

  lemma CountOfMissingItem(items: seq<Metrics>, name: string, key: real)
    requires key !in Union(ItemKeys(name), items)
    ensures Total(ItemCount(name, key), items) == 0.0
  {
    UnionMembers(ItemKeys(name), items, key);
    forall item | item in items ensures ItemCount(name, key)(item) == 0.0 {
      var i :| 0 <= i < |items| && items[i] == item;
      assert key !in ItemKeys(name)(items[i]);
    }
    TotalZero(ItemCount(name, key), items);
  }

  lemma MergedPartsOfMetric(s: Settings, read: Reader, parts: seq<seq<string>>, name: string)
    ensures MergedMetric(s, Each(Hosting(s, read), parts), name) == HostMetric(s, read, Flatten(parts), name)
  {
    var r, items, whole := Hosting(s, read), Each(Hosting(s, read), parts), Flatten(parts);
    forall p | p in parts
      ensures !IsTimings(s, name) ==> ItemValue(name)(r(p)) == Total(ValueFor(read, name), p)
      ensures IsTimings(s, name) ==> ItemKeys(name)(r(p)) == Union(KeysFor(read, name), p)
      ensures IsTimings(s, name) ==> forall key :: ItemCount(name, key)(r(p)) == Total(CountFor(read, name, key), p)
    {
      HostTotals(s, read, p, name);
    }
    if IsTimings(s, name) {
      UnionOfParts(KeysFor(read, name), ItemKeys(name), r, parts);
      forall key ensures Total(ItemCount(name, key), items) == Total(CountFor(read, name, key), whole) {
        TotalOfParts(CountFor(read, name, key), ItemCount(name, key), r, parts);
      }
    } else {
      TotalOfParts(ValueFor(read, name), ItemValue(name), r, parts);
    }
  }

  /** A host's parts, merged, are what the host would have found in one go. */
  lemma MergedPartsOfHost(s: Settings, read: Reader, parts: seq<seq<string>>)
    ensures Merge(s, Each(Hosting(s, read), parts)) == HostResult(s, read, Flatten(parts))
  {
    var r, items := Hosting(s, read), Each(Hosting(s, read), parts);
    forall p | p in parts ensures ItemNames()(r(p)) == Union(NamesFor(read), p) { HostTotals(s, read, p, ""); }
    UnionOfParts(NamesFor(read), ItemNames(), r, parts);
    forall name ensures MergedMetric(s, items, name) == HostMetric(s, read, Flatten(parts), name) {
      MergedPartsOfMetric(s, read, parts, name);
    }
  }

  lemma MergedGroupsOfMetric(s: Settings, groups: seq<seq<Metrics>>, name: string)
    ensures MergedMetric(s, Each(Merging(s), groups), name) == MergedMetric(s, Flatten(groups), name)
  {
    var r, items, whole := Merging(s), Each(Merging(s), groups), Flatten(groups);
    forall p | p in groups
      ensures !IsTimings(s, name) ==> ItemValue(name)(r(p)) == Total(ItemValue(name), p)
      ensures IsTimings(s, name) ==> ItemKeys(name)(r(p)) == Union(ItemKeys(name), p)
      ensures IsTimings(s, name) ==> forall key :: ItemCount(name, key)(r(p)) == Total(ItemCount(name, key), p)
    {
      MergeTotals(s, p, name);
    }
    if IsTimings(s, name) {
      UnionOfParts(ItemKeys(name), ItemKeys(name), r, groups);
      forall key ensures Total(ItemCount(name, key), items) == Total(ItemCount(name, key), whole) {
        TotalOfParts(ItemCount(name, key), ItemCount(name, key), r, groups);
      }
    } else {
      TotalOfParts(ItemValue(name), ItemValue(name), r, groups);
    }
  }

  /** Groups, merged, are what merging all their members at once gives. */
  lemma MergedGroups(s: Settings, groups: seq<seq<Metrics>>)
    ensures Merge(s, Each(Merging(s), groups)) == Merge(s, Flatten(groups))
  {
    var r, items := Merging(s), Each(Merging(s), groups);
    forall p | p in groups ensures ItemNames()(r(p)) == Union(ItemNames(), p) { MergeTotals(s, p, ""); }
    UnionOfParts(ItemNames(), ItemNames(), r, groups);
    forall name ensures MergedMetric(s, items, name) == MergedMetric(s, Flatten(groups), name) {
      MergedGroupsOfMetric(s, groups, name);
    }
  }

  lemma MetricIgnoresOrder(s: Settings, read: Reader, lines: seq<string>, others: seq<string>, name: string)
    requires multiset(lines) == multiset(others)
    ensures HostMetric(s, read, lines, name) == HostMetric(s, read, others, name)
  {
    UnionReordered(KeysFor(read, name), lines, others);
    TotalReordered(ValueFor(read, name), lines, others);
    forall key ensures Total(CountFor(read, name, key), lines) == Total(CountFor(read, name, key), others) {
      TotalReordered(CountFor(read, name, key), lines, others);
    }
  }

  lemma HostIgnoresOrder(s: Settings, read: Reader, lines: seq<string>, others: seq<string>)
    requires multiset(lines) == multiset(others)
    ensures HostResult(s, read, lines) == HostResult(s, read, others)
  {
    UnionReordered(NamesFor(read), lines, others);
    forall name ensures HostMetric(s, read, lines, name) == HostMetric(s, read, others, name) {
      MetricIgnoresOrder(s, read, lines, others, name);
    }
  }

  /**
   However the lines of a payload are dealt out to hosts, and in whatever order, merging what the
   hosts make of them gives what one host makes of the whole payload, malformed lines included.
   */
  lemma TwoStagesEqualOne(s: Settings, delta: real, parts: seq<seq<string>>, payload: seq<string>)
    requires delta != 0.0 && multiset(Flatten(parts)) == multiset(payload)
    ensures Merge(s, Each(Hosting(s, LineReader(s, delta)), parts)) == HostResult(s, LineReader(s, delta), payload)
    ensures Merge(s, [HostResult(s, LineReader(s, delta), payload)]) == HostResult(s, LineReader(s, delta), payload)
  {
    var read := LineReader(s, delta);
    MergedPartsOfHost(s, read, parts);
    HostIgnoresOrder(s, read, Flatten(parts), payload);
    MergedPartsOfHost(s, read, [payload]);
    assert Each(Hosting(s, read), [payload]) == [HostResult(s, read, payload)];
    assert Flatten([payload]) == payload;
  }
}
