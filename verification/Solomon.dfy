/**
 The Solomon sender: a nested result becomes a flat list of sensors, each labelled by the path that
 leads to its value.
 */
module Solomon {
  import opened Wrappers
  import opened Text

  /** A decoded result; a `Numeral` is a text with what parsing it as a number gives, `Other` is no number at all. */
  datatype Value =
    | Number(value: real)
    | Numeral(parsed: Option<real>)
    | List(items: seq<Value>)
    | Dict(entries: seq<Entry>)
    | Other
  /** The entries of a map are listed in the order an iteration happens to yield them. */
  datatype Entry = Entry(key: string, value: Value)

  datatype Sensor = Sensor(labels: map<string, string>, ts: int, value: real)
  datatype Sender = Sender(fields: seq<string>, schema: seq<string>, prefix: string)

  // ----- dotted names

  function Join(path: seq<string>): string {
    if path == [] then "" else if |path| == 1 then path[0] else path[0] + "." + Join(path[1..])
  }

  function Split(s: string): (path: seq<string>)
    ensures path != []
  {
    var at := Find(s, '.');
    if at == |s| then [s] else [s[..at]] + Split(s[at + 1..])
  }

  predicate DotFree(path: seq<string>) {
    forall i :: 0 <= i < |path| ==> '.' !in path[i]
  }

  lemma {:induction false} SplitOfJoin(path: seq<string>)
    requires path != [] && DotFree(path)
    ensures Split(Join(path)) == path
  {
    var first, s := path[0], Join(path);
    if |path| == 1 {
      assert '.' !in first;
      assert Find(s, '.') == |s|;
    } else {
      var rest := path[1..];
      assert s == first + "." + Join(rest);
      FindAfter(first, '.', Join(rest));
      SplitOfJoin(rest);
      assert s[|first| + 1..] == Join(rest) && s[..|first|] == first;
    }
  }

  lemma {:induction false} JoinOfSplit(s: string)
    ensures Join(Split(s)) == s && DotFree(Split(s))
    decreases |s|
  {
    var at := Find(s, '.');
    if at < |s| {
      JoinOfSplit(s[at + 1..]);
      assert s == s[..at] + "." + s[at + 1..];
    }
  }

  // ----- one sensor

  function NumberOf(v: Value): Option<real> {
    match v
    case Number(x) => Some(x)
    case Numeral(parsed) => parsed
    case _ => None
  }

  function TrimDots(s: string): string {
    if s != "" && s[|s| - 1] == '.' then TrimDots(s[..|s| - 1]) else s
  }

  /** The first k schema names label the first k components. */
  function SchemaLabels(schema: seq<string>, path: seq<string>, k: nat): map<string, string>
    requires k <= |schema| && k <= |path|
  {
    if k == 0 then map[] else SchemaLabels(schema, path, k - 1)[schema[k - 1] := path[k - 1]]
  }

  /** With a schema, a path of one component is taken for a dotted name. */
  function Components(s: Sender, path: seq<string>): seq<string> {
    if s.schema != [] && |path| == 1 then Split(path[0]) else path
  }

  /** The labels of a path, unless it is too short for the schema. */
  function LabelsOf(s: Sender, path: seq<string>): Option<map<string, string>> {
    if s.schema == [] then Some(map["sensor" := s.prefix + Join(path)])
    else
      var components := Components(s, path);
      if |s.schema| >= |components| then None
      else
        var named := SchemaLabels(s.schema, components, |s.schema|)["sensor" := Join(components[|s.schema|..])];
        Some(if s.prefix == "" then named else named["prefix" := TrimDots(s.prefix)])
  }

  function SensorOf(s: Sender, path: seq<string>, v: Value, timestamp: int): Option<Sensor> {
    match (NumberOf(v), LabelsOf(s, path))
    case (Some(x), Some(labels)) => Some(Sensor(labels, timestamp, x))
    case _ => None
  }

  /** The prefix without the dots at its end. */
  ghost predicate Trimmed(prefix: string, trimmed: string) {
    && trimmed <= prefix && (trimmed == "" || trimmed[|trimmed| - 1] != '.')
    && forall i :: |trimmed| <= i < |prefix| ==> prefix[i] == '.'
  }

  lemma {:induction false} TrimDotsTrims(s: string)
    ensures Trimmed(s, TrimDots(s))
  {
    if s != "" && s[|s| - 1] == '.' {
      TrimDotsTrims(s[..|s| - 1]);
    }
  }

  /** A label is the component of the last of the first k schema names that is its name. */
  ghost predicate LabelFrom(schema: seq<string>, path: seq<string>, k: nat, name: string, i: nat)
    requires k <= |schema| && k <= |path|
  {
    && i < k && schema[i] == name && (forall j :: i < j < k ==> schema[j] != name)
    && name in SchemaLabels(schema, path, k) && SchemaLabels(schema, path, k)[name] == path[i]
  }

  lemma {:induction false} SchemaLabelFrom(schema: seq<string>, path: seq<string>, k: nat, name: string)
    requires k <= |schema| && k <= |path|
    ensures if name in schema[..k] then exists i :: LabelFrom(schema, path, k, name, i)
      else name !in SchemaLabels(schema, path, k)
  {
    if k > 0 {
      assert schema[..k] == schema[..k - 1] + [schema[k - 1]];
      SchemaLabelFrom(schema, path, k - 1, name);
      if schema[k - 1] == name {
        assert LabelFrom(schema, path, k, name, k - 1);
      } else if name in schema[..k - 1] {
        var i :| LabelFrom(schema, path, k - 1, name, i);
        assert LabelFrom(schema, path, k, name, i);
      }
    }
  }

  /** The label is what its name in the schema stands for: the component at the last place of that name. */
  ghost predicate NamedComponent(schema: seq<string>, components: seq<string>, name: string, text: string)
    requires |schema| <= |components|
  {
    exists i ::
      && 0 <= i < |schema| && schema[i] == name && text == components[i]
      && forall j :: i < j < |schema| ==> schema[j] != name
  }

  /** What a schema makes of one label name, or `None` if there is no such label. */
  ghost predicate LabelSays(s: Sender, components: seq<string>, name: string, given: Option<string>)
    requires |s.schema| < |components|
  {
    if name == "prefix" && s.prefix != "" then given.Some? && Trimmed(s.prefix, given.value)
    else if name == "sensor" then given == Some(Join(components[|s.schema|..]))
    else if name in s.schema then given.Some? && NamedComponent(s.schema, components, name, given.value)
    else given == None
  }

  function Label(labels: map<string, string>, name: string): Option<string> {
    if name in labels then Some(labels[name]) else None
  }

  lemma SchemaLabelSays(s: Sender, components: seq<string>, name: string)
    requires |s.schema| < |components|
    ensures var named := SchemaLabels(s.schema, components, |s.schema|)["sensor" := Join(components[|s.schema|..])];
      var labels := if s.prefix == "" then named else named["prefix" := TrimDots(s.prefix)];
      LabelSays(s, components, name, Label(labels, name))
  {
    assert s.schema[..|s.schema|] == s.schema;
    SchemaLabelFrom(s.schema, components, |s.schema|, name);
    TrimDotsTrims(s.prefix);
    if name in s.schema {
      var i :| LabelFrom(s.schema, components, |s.schema|, name, i);
    }
  }

  /** A number, or a text that can be read as one. */
  predicate IsNumber(v: Value, x: real) {
    v == Number(x) || v == Numeral(Some(x))
  }

  /** Without a schema the only label is the path joined by dots, behind the prefix. */
  ghost predicate PlainSays(s: Sender, path: seq<string>, name: string, given: Option<string>) {
    given == if name == "sensor" then Some(s.prefix + Join(path)) else None
  }

  /**
   A sensor carries the number, the time, and the labels of its path.  With a schema a path of one
   component is split at its dots, and there have to be more components than the schema names.
   */
  lemma SensorSays(s: Sender, path: seq<string>, v: Value, timestamp: int, name: string)
    ensures var components := if |path| == 1 then Split(path[0]) else path; var made := SensorOf(s, path, v, timestamp);
      && (made.Some? <==> (exists x :: IsNumber(v, x)) && (s.schema == [] || |s.schema| < |components|))
      && (made.Some? ==> IsNumber(v, made.value.value) && made.value.ts == timestamp)
      && (made.Some? && s.schema == [] ==> PlainSays(s, path, name, Label(made.value.labels, name)))
      && (made.Some? && s.schema != [] ==> LabelSays(s, components, name, Label(made.value.labels, name)))
  {
    assert forall x :: IsNumber(v, x) ==> NumberOf(v) == Some(x);
    assert NumberOf(v).Some? ==> IsNumber(v, NumberOf(v).value);
    if s.schema != [] && |s.schema| < |Components(s, path)| {
      SchemaLabelSays(s, Components(s, path), name);
    }
  }

  method DumpSensor(s: Sender, path: seq<string>, value: Value, timestamp: int) returns (sensor: Option<Sensor>)
    ensures sensor == SensorOf(s, path, value, timestamp)
  {
    var sensorValue := NumberOf(value);
    if sensorValue.None? {
      return None;
    }
    var labels: map<string, string> := map[];
    if |s.schema| > 0 {
      var components := path;
      if |components| == 1 {
        components := Split(components[0]);
      }
      if |s.schema| >= |components| {
        return None;
      }
      for i := 0 to |s.schema|
        invariant labels == SchemaLabels(s.schema, components, i)
      {
        labels := labels[s.schema[i] := components[i]];
      }
      labels := labels["sensor" := Join(components[|s.schema|..])];
      if s.prefix != "" {
        labels := labels["prefix" := TrimDots(s.prefix)];
      }
    } else {
      labels := labels["sensor" := s.prefix + Join(path)];
    }
    return Some(Sensor(labels, timestamp, sensorValue.value));
  }

  // ----- all sensors

  datatype Leaf = Leaf(path: seq<string>, value: Value)

  /** Items that match the fields one to one. */
  predicate Fitting(fields: seq<string>, items: seq<Value>) {
    fields != [] && |fields| == |items|
  }

  function ItemLeaves(fields: seq<string>, path: seq<string>, items: seq<Value>, k: nat): seq<Leaf>
    requires k <= |items| && k <= |fields|
  {
    if k == 0 then [] else ItemLeaves(fields, path, items, k - 1) + [Leaf(path + [fields[k - 1]], items[k - 1])]
  }

  function Size(v: Value): nat {
    if v.Dict? then |v.entries| else 0
  }

  /**
   The leaves of a value, of a map those below its first k entries, in order and with their paths.
   A list that does not fit the fields counts as a leaf that is no number.
   */
  function Leaves(fields: seq<string>, path: seq<string>, v: Value, k: nat): seq<Leaf>
    requires k <= Size(v)
    decreases v, k
  {
    match v
    case Dict(entries) =>
      if k == 0 then []
      else
        var e := entries[k - 1];
        Leaves(fields, path, v, k - 1) + Leaves(fields, path + [e.key], e.value, Size(e.value))
    case List(items) => if Fitting(fields, items) then ItemLeaves(fields, path, items, |items|) else [Leaf(path, v)]
    case _ => [Leaf(path, v)]
  }

  function AllLeaves(fields: seq<string>, path: seq<string>, v: Value): seq<Leaf> {
    Leaves(fields, path, v, Size(v))
  }

  /** f of all elements, unless it is missing for one of them. */
  function ConvertAll<A, B>(f: A -> Option<B>, xs: seq<A>): Option<seq<B>> {
    if xs == [] then Some([]) else Both(ConvertAll(f, xs[..|xs| - 1]), Single(f(xs[|xs| - 1])))
  }

  function SensorFor(s: Sender, timestamp: int): Leaf -> Option<Sensor> {
    (leaf: Leaf) => SensorOf(s, leaf.path, leaf.value, timestamp)
  }

  /** The sensors of all leaves, unless one of them makes none. */
  function SensorsOf(s: Sender, leaves: seq<Leaf>, timestamp: int): Option<seq<Sensor>> {
    ConvertAll(SensorFor(s, timestamp), leaves)
  }

  function Single<T>(x: Option<T>): Option<seq<T>> {
    match x
    case Some(v) => Some([v])
    case None => None
  }

  function Both<T>(x: Option<seq<T>>, y: Option<seq<T>>): Option<seq<T>> {
    match (x, y)
    case (Some(v), Some(w)) => Some(v + w)
    case _ => None
  }

  lemma {:induction false} ConvertsEach<A, B>(f: A -> Option<B>, xs: seq<A>)
    ensures ConvertAll(f, xs).Some? <==> forall i :: 0 <= i < |xs| ==> f(xs[i]).Some?
    ensures ConvertAll(f, xs).Some? ==>
      |ConvertAll(f, xs).value| == |xs| && forall i :: 0 <= i < |xs| ==> f(xs[i]) == Some(ConvertAll(f, xs).value[i])
  {
    if xs != [] {
      var init := xs[..|xs| - 1];
      ConvertsEach(f, init);
      assert forall i :: 0 <= i < |init| ==> xs[i] == init[i];
    }
  }

  lemma {:induction false} ConvertConcat<A, B>(f: A -> Option<B>, xs: seq<A>, ys: seq<A>)
    ensures ConvertAll(f, xs + ys) == Both(ConvertAll(f, xs), ConvertAll(f, ys))
  {
    if ys == [] {
      assert xs + ys == xs;
      BothEmpty(ConvertAll(f, xs));
    } else {
      var init, last := ys[..|ys| - 1], ys[|ys| - 1];
      assert (xs + ys)[..|xs + ys| - 1] == xs + init && (xs + ys)[|xs + ys| - 1] == last;
      ConvertConcat(f, xs, init);
      BothAssociates(ConvertAll(f, xs), ConvertAll(f, init), Single(f(last)));
    }
  }

  /** One sensor per leaf, in order; and none at all exactly if some leaf makes none. */
  lemma OneSensorPerLeaf(s: Sender, leaves: seq<Leaf>, timestamp: int)
    ensures SensorsOf(s, leaves, timestamp).Some? <==>
      forall i :: 0 <= i < |leaves| ==> SensorOf(s, leaves[i].path, leaves[i].value, timestamp).Some?
    ensures SensorsOf(s, leaves, timestamp).Some? ==>
      var sensors := SensorsOf(s, leaves, timestamp).value;
      && |sensors| == |leaves|
      && forall i :: 0 <= i < |leaves| ==> SensorOf(s, leaves[i].path, leaves[i].value, timestamp) == Some(sensors[i])
  {
    ConvertsEach(SensorFor(s, timestamp), leaves);
    forall i | 0 <= i < |leaves|
      ensures SensorFor(s, timestamp)(leaves[i]) == SensorOf(s, leaves[i].path, leaves[i].value, timestamp)
    {}
  }

  lemma BothEmpty<T>(x: Option<seq<T>>)
    ensures Both(x, Some([])) == x && Both(Some([]), x) == x
  {
    if x.Some? {
      assert x.value + [] == x.value && [] + x.value == x.value;
    }
  }

  lemma BothAssociates<T>(x: Option<seq<T>>, y: Option<seq<T>>, z: Option<seq<T>>)
    ensures Both(Both(x, y), z) == Both(x, Both(y, z))
  {
    if x.Some? && y.Some? && z.Some? {
      assert x.value + y.value + z.value == x.value + (y.value + z.value);
    }
  }

  lemma ConvertOne<A, B>(f: A -> Option<B>, x: A)
    ensures ConvertAll(f, [x]) == Single(f(x))
  {
    assert [x][..0] == [];
    BothEmpty(Single(f(x)));
  }

  // ----- what the loops add up, by how many items or entries they dealt with

  type Progress = nat -> Option<seq<Sensor>>

  ghost predicate Adds(done: Progress, next: Progress, n: nat) {
    done(0) == Some([]) && forall k :: 0 <= k < n ==> AddsAt(done, next, k)
  }

  ghost predicate AddsAt(done: Progress, next: Progress, k: nat) {
    done(k + 1) == Both(done(k), next(k))
  }

  /** A loop that failed once has failed for good. */
  lemma {:induction false} LostForGood(done: Progress, next: Progress, n: nat, j: nat, k: nat)
    requires Adds(done, next, n) && j <= k <= n && done(j).None?
    ensures done(k).None?
  {
    if j < k {
      LostForGood(done, next, n, j, k - 1);
      assert AddsAt(done, next, k - 1);
    }
  }

  function ItemSensor(s: Sender, path: seq<string>, items: seq<Value>, timestamp: int): Progress {
    (i: nat) =>
      if i < |items| && i < |s.fields| then Single(SensorOf(s, path + [s.fields[i]], items[i], timestamp)) else None
  }

  function ItemsDone(s: Sender, path: seq<string>, items: seq<Value>, timestamp: int): Progress {
    (i: nat) =>
      if i <= |items| && i <= |s.fields| then SensorsOf(s, ItemLeaves(s.fields, path, items, i), timestamp) else None
  }

  lemma ItemsAdd(s: Sender, path: seq<string>, items: seq<Value>, timestamp: int)
    requires |items| == |s.fields|
    ensures Adds(ItemsDone(s, path, items, timestamp), ItemSensor(s, path, items, timestamp), |items|)
  {
    forall k | 0 <= k < |items|
      ensures AddsAt(ItemsDone(s, path, items, timestamp), ItemSensor(s, path, items, timestamp), k)
    {
      ItemAdds(s, path, items, timestamp, k);
    }
  }

  lemma ItemAdds(s: Sender, path: seq<string>, items: seq<Value>, timestamp: int, k: nat)
    requires k < |items| == |s.fields|
    ensures AddsAt(ItemsDone(s, path, items, timestamp), ItemSensor(s, path, items, timestamp), k)
  {
    var leaf := Leaf(path + [s.fields[k]], items[k]);
    ConvertConcat(SensorFor(s, timestamp), ItemLeaves(s.fields, path, items, k), [leaf]);
    ConvertOne(SensorFor(s, timestamp), leaf);
  }

  function EntrySensors(s: Sender, path: seq<string>, rv: Value, timestamp: int): Progress {
    (k: nat) =>
      if k < Size(rv)
      then SensorsOf(s, AllLeaves(s.fields, path + [rv.entries[k].key], rv.entries[k].value), timestamp)
      else None
  }

  function EntriesDone(s: Sender, path: seq<string>, rv: Value, timestamp: int): Progress {
    (k: nat) => if k <= Size(rv) then SensorsOf(s, Leaves(s.fields, path, rv, k), timestamp) else None
  }

  lemma EntryAdds(s: Sender, path: seq<string>, rv: Value, timestamp: int, k: nat)
    requires rv.Dict? && k < |rv.entries|
    ensures AddsAt(EntriesDone(s, path, rv, timestamp), EntrySensors(s, path, rv, timestamp), k)
  {
    var below := AllLeaves(s.fields, path + [rv.entries[k].key], rv.entries[k].value);
    assert Leaves(s.fields, path, rv, k + 1) == Leaves(s.fields, path, rv, k) + below;
    ConvertConcat(SensorFor(s, timestamp), Leaves(s.fields, path, rv, k), below);
  }

  lemma EntriesAdd(s: Sender, path: seq<string>, rv: Value, timestamp: int)
    requires rv.Dict?
    ensures Adds(EntriesDone(s, path, rv, timestamp), EntrySensors(s, path, rv, timestamp), |rv.entries|)
  {
    assert Leaves(s.fields, path, rv, 0) == [];
    assert EntriesDone(s, path, rv, timestamp)(0) == Some([]);
    forall k | 0 <= k < |rv.entries|
      ensures AddsAt(EntriesDone(s, path, rv, timestamp), EntrySensors(s, path, rv, timestamp), k)
    {
      EntryAdds(s, path, rv, timestamp, k);
    }
  }

  // ----- the loops

  method DumpSlice(s: Sender, sensors: seq<Sensor>, path: seq<string>, items: seq<Value>, timestamp: int)
    returns (ok: bool, more: seq<Sensor>)
    ensures (if ok then Some(more) else None) ==
      if Fitting(s.fields, items)
      then Both(Some(sensors), SensorsOf(s, ItemLeaves(s.fields, path, items, |items|), timestamp))
      else None
  {
    if |s.fields| == 0 || |s.fields| != |items| {
      return false, sensors;
    }
    ItemsAdd(s, path, items, timestamp);
    ok, more := DumpItems(s, sensors, path, items, timestamp,
                          ItemsDone(s, path, items, timestamp), ItemSensor(s, path, items, timestamp));
  }

  method DumpItems(s: Sender, sensors: seq<Sensor>, path: seq<string>, items: seq<Value>, timestamp: int,
                   ghost done: Progress, ghost next: Progress)
    returns (ok: bool, more: seq<Sensor>)
    requires |items| == |s.fields| && Adds(done, next, |items|)
    requires forall i {:trigger next(i)} :: 0 <= i < |items| ==>
      next(i) == Single(SensorOf(s, path + [s.fields[i]], items[i], timestamp))
    ensures (if ok then Some(more) else None) == Both(Some(sensors), done(|items|))
  {
    more := sensors;
    var stack := path;
    BothEmpty(Some(sensors));
    for i := 0 to |items|
      invariant stack == path
      invariant Some(more) == Both(Some(sensors), done(i))
    {
      stack := stack + [s.fields[i]];
      var item := DumpSensor(s, stack, items[i], timestamp);
      assert AddsAt(done, next, i);
      BothAssociates(Some(sensors), done(i), next(i));
      stack := stack[..|stack| - 1];
      if item.None? {
        LostForGood(done, next, |items|, i + 1, |items|);
        return false, more;
      }
      more := more + [item.value];
    }
    return true, more;
  }

  method DumpMap(s: Sender, sensors: seq<Sensor>, path: seq<string>, rv: Value, timestamp: int)
    returns (ok: bool, more: seq<Sensor>)
    requires rv.Dict?
    ensures (if ok then Some(more) else None)
      == Both(Some(sensors), SensorsOf(s, AllLeaves(s.fields, path, rv), timestamp))
    decreases rv, 1
  {
    EntriesAdd(s, path, rv, timestamp);
    ok, more := DumpEntries(s, sensors, path, rv, timestamp,
                            EntriesDone(s, path, rv, timestamp), EntrySensors(s, path, rv, timestamp));
  }

  method DumpEntries(s: Sender, sensors: seq<Sensor>, path: seq<string>, rv: Value, timestamp: int,
                     ghost done: Progress, ghost next: Progress)
    returns (ok: bool, more: seq<Sensor>)
    requires rv.Dict? && Adds(done, next, |rv.entries|)
    requires forall k {:trigger next(k)} :: 0 <= k < |rv.entries| ==>
      next(k) == SensorsOf(s, AllLeaves(s.fields, path + [rv.entries[k].key], rv.entries[k].value), timestamp)
    ensures (if ok then Some(more) else None) == Both(Some(sensors), done(|rv.entries|))
    decreases rv, 0
  {
    more := sensors;
    var stack := path;
    BothEmpty(Some(sensors));
    for k := 0 to |rv.entries|
      invariant stack == path
      invariant Some(more) == Both(Some(sensors), done(k))
    {
      stack := stack + [rv.entries[k].key];
      assert AddsAt(done, next, k);
      BothAssociates(Some(sensors), done(k), next(k));
      ok, more := DumpItem(s, more, stack, rv.entries[k].value, timestamp);
      if !ok {
        LostForGood(done, next, |rv.entries|, k + 1, |rv.entries|);
        return;
      }
      stack := stack[..|stack| - 1];
    }
    ok := true;
  }

  method DumpItem(s: Sender, sensors: seq<Sensor>, path: seq<string>, item: Value, timestamp: int)
    returns (ok: bool, more: seq<Sensor>)
    ensures (if ok then Some(more) else None)
      == Both(Some(sensors), SensorsOf(s, AllLeaves(s.fields, path, item), timestamp))
    decreases item, 2
  {
    more := sensors;
    ConvertOne(SensorFor(s, timestamp), Leaf(path, item));
    if item.List? {
      ok, more := DumpSlice(s, sensors, path, item.items, timestamp);
    } else if item.Dict? {
      ok, more := DumpMap(s, sensors, path, item, timestamp);
    } else {
      var sensor := DumpSensor(s, path, item, timestamp);
      ok := sensor.Some?;
      if ok {
        more := more + [sensor.value];
      }
    }
  }

  /**
   Flattens a result.  It succeeds exactly when every leaf is a number under a path the schema can
   label, and then yields exactly one sensor per leaf, in order.
   */
  method Flatten(s: Sender, rv: Value, timestamp: int) returns (sensors: Option<seq<Sensor>>)
    requires rv.Dict?
    ensures sensors == SensorsOf(s, AllLeaves(s.fields, [], rv), timestamp)
  {
    var ok, list := DumpMap(s, [], [], rv, timestamp);
    BothEmpty(SensorsOf(s, AllLeaves(s.fields, [], rv), timestamp));
    sensors := if ok then Some(list) else None;
  }

  // ----- which values the leaves are

  /** Following the path from v ends at the leaf w. */
  ghost predicate LeadsTo(fields: seq<string>, v: Value, path: seq<string>, w: Value)
    decreases v
  {
    match v
    case Dict(entries) =>
      path != [] && exists m ::
        0 <= m < |entries| && entries[m].key == path[0] && LeadsTo(fields, entries[m].value, path[1..], w)
    case List(items) =>
      if Fitting(fields, items)
      then |path| == 1 && exists n :: 0 <= n < |items| && fields[n] == path[0] && items[n] == w
      else path == [] && w == v
    case _ => path == [] && w == v
  }

  lemma {:induction false} ItemLeafAt(fields: seq<string>, path: seq<string>, items: seq<Value>, k: nat, i: nat)
    requires i < k <= |items| && k <= |fields|
    ensures |ItemLeaves(fields, path, items, k)| == k
    ensures ItemLeaves(fields, path, items, k)[i] == Leaf(path + [fields[i]], items[i])
  {
    if i < k - 1 {
      ItemLeafAt(fields, path, items, k - 1, i);
    } else if k > 1 {
      ItemLeafAt(fields, path, items, k - 1, 0);
    }
  }

  /** Every listed leaf is reached by its path. */
  lemma {:induction false} LeavesAreReached(fields: seq<string>, path: seq<string>, v: Value, k: nat, i: nat)
    requires k <= Size(v) && i < |Leaves(fields, path, v, k)|
    ensures var leaf := Leaves(fields, path, v, k)[i];
      path <= leaf.path && LeadsTo(fields, v, leaf.path[|path|..], leaf.value)
    decreases v, k
  {
    var leaf := Leaves(fields, path, v, k)[i];
    if v.Dict? {
      var e, before := v.entries[k - 1], Leaves(fields, path, v, k - 1);
      if i < |before| {
        LeavesAreReached(fields, path, v, k - 1, i);
      } else {
        LeavesAreReached(fields, path + [e.key], e.value, Size(e.value), i - |before|);
        var rest := leaf.path[|path|..];
        assert leaf.path[..|path| + 1] == path + [e.key];
        assert rest[0] == e.key && rest[1..] == leaf.path[|path| + 1..];
      }
    } else if v.List? && Fitting(fields, v.items) {
      ItemLeafAt(fields, path, v.items, |v.items|, 0);
      ItemLeafAt(fields, path, v.items, |v.items|, i);
      assert leaf.path[|path|..] == [fields[i]];
    }
  }

  /** Every leaf that a path reaches is listed. */
  lemma {:induction false} ReachedAreLeaves(fields: seq<string>, path: seq<string>, v: Value, below: seq<string>,
                                            w: Value)
    requires LeadsTo(fields, v, below, w)
    ensures Leaf(path + below, w) in AllLeaves(fields, path, v)
    decreases v
  {
    match v {
      case Dict(entries) =>
        var m :| 0 <= m < |entries| && entries[m].key == below[0] && LeadsTo(fields, entries[m].value, below[1..], w);
        ReachedAreLeaves(fields, path + [below[0]], entries[m].value, below[1..], w);
        assert path + below == path + [below[0]] + below[1..];
        LeafOfEntry(fields, path, v, |entries|, m, Leaf(path + below, w));
      case List(items) =>
        if Fitting(fields, items) {
          var n :| 0 <= n < |items| && fields[n] == below[0] && items[n] == w;
          ItemLeafAt(fields, path, items, |items|, n);
          assert below == [fields[n]];
        } else {
          assert path + below == path;
        }
      case _ => assert path + below == path;
    }
  }

  lemma {:induction false} LeafOfEntry(fields: seq<string>, path: seq<string>, v: Value, k: nat, m: nat, leaf: Leaf)
    requires v.Dict? && m < k <= |v.entries|
    requires leaf in AllLeaves(fields, path + [v.entries[m].key], v.entries[m].value)
    ensures leaf in Leaves(fields, path, v, k)
  {
    if m < k - 1 {
      LeafOfEntry(fields, path, v, k - 1, m, leaf);
    }
  }

  /** Maps do not repeat a key. */
  ghost predicate WellKeyed(v: Value) {
    v.Dict? ==>
      && (forall m, n :: 0 <= m < n < |v.entries| ==> v.entries[m].key != v.entries[n].key)
      && (forall m :: 0 <= m < |v.entries| ==> WellKeyed(v.entries[m].value))
  }

  lemma {:induction false} LeafIsUnder(fields: seq<string>, path: seq<string>, v: Value, k: nat, i: nat)
    returns (m: nat)
    requires v.Dict? && k <= Size(v) && i < |Leaves(fields, path, v, k)|
    ensures m < k && path + [v.entries[m].key] <= Leaves(fields, path, v, k)[i].path
  {
    var e, before := v.entries[k - 1], Leaves(fields, path, v, k - 1);
    if i < |before| {
      m := LeafIsUnder(fields, path, v, k - 1, i);
    } else {
      LeavesAreReached(fields, path + [e.key], e.value, Size(e.value), i - |before|);
      m := k - 1;
    }
  }

  /** No two leaves share a path. */
  lemma {:induction false} LeafPathsDiffer(fields: seq<string>, path: seq<string>, v: Value, k: nat, i: nat, j: nat)
    requires WellKeyed(v) && (forall m, n :: 0 <= m < n < |fields| ==> fields[m] != fields[n])
    requires k <= Size(v) && i < j < |Leaves(fields, path, v, k)|
    ensures Leaves(fields, path, v, k)[i].path != Leaves(fields, path, v, k)[j].path
    decreases v, k
  {
    if v.Dict? {
      var e, before := v.entries[k - 1], Leaves(fields, path, v, k - 1);
      if j < |before| {
        LeafPathsDiffer(fields, path, v, k - 1, i, j);
      } else if i >= |before| {
        LeafPathsDiffer(fields, path + [e.key], e.value, Size(e.value), i - |before|, j - |before|);
      } else {
        var m := LeafIsUnder(fields, path, v, k - 1, i);
        LeavesAreReached(fields, path + [e.key], e.value, Size(e.value), j - |before|);
        assert (path + [v.entries[m].key])[|path|] != (path + [e.key])[|path|];
      }
    } else if v.List? && Fitting(fields, v.items) {
      ItemLeafAt(fields, path, v.items, |v.items|, 0);
      ItemLeafAt(fields, path, v.items, |v.items|, i);
      ItemLeafAt(fields, path, v.items, |v.items|, j);
      assert (path + [fields[i]])[|path|] != (path + [fields[j]])[|path|];
    }
  }

  // ----- which paths share their labels

  /** A flat dotted name gets the labels of the nested path of its components. */
  lemma FlatNameLabels(s: Sender, path: seq<string>)
    requires path != [] && DotFree(path)
    ensures LabelsOf(s, [Join(path)]) == LabelsOf(s, path)
  {
    SplitOfJoin(path);
    if |path| == 1 {
      assert [Join(path)] == path;
    }
  }

  /** What it takes for labels to tell paths apart. */
  predicate Telling(s: Sender) {
    s.schema == [] || (
      && (forall i, j :: 0 <= i < j < |s.schema| ==> s.schema[i] != s.schema[j])
      && "sensor" !in s.schema
      && (s.prefix == "" || "prefix" !in s.schema))
  }

  lemma {:induction false} SchemaLabelAt(schema: seq<string>, path: seq<string>, k: nat, i: nat)
    requires i < k <= |schema| && k <= |path| && (forall m, n :: 0 <= m < n < |schema| ==> schema[m] != schema[n])
    ensures schema[i] in SchemaLabels(schema, path, k) && SchemaLabels(schema, path, k)[schema[i]] == path[i]
  {
    if i < k - 1 {
      SchemaLabelAt(schema, path, k - 1, i);
    }
  }

  lemma LabelAt(s: Sender, path: seq<string>, i: nat)
    requires s.schema != [] && Telling(s) && |path| > |s.schema| > i
    requires LabelsOf(s, path).Some? && Components(s, path) == path
    ensures var labels := LabelsOf(s, path).value;
      && s.schema[i] in labels && labels[s.schema[i]] == path[i]
      && "sensor" in labels && labels["sensor"] == Join(path[|s.schema|..])
  {
    SchemaLabelAt(s.schema, path, |s.schema|, i);
    assert s.schema[i] in s.schema;
  }

  lemma NestedComponents(s: Sender, path: seq<string>)
    requires path != [] && DotFree(path) && s.schema != [] && LabelsOf(s, path).Some?
    ensures Components(s, path) == path && |path| > |s.schema|
  {
    if |path| == 1 {
      SplitOfJoin(path);
    }
  }

  /** With such a schema, paths of dot-free components with the same labels are the same. */
  lemma LabelsTell(s: Sender, p: seq<string>, q: seq<string>)
    requires Telling(s) && p != [] && q != [] && DotFree(p) && DotFree(q)
    requires LabelsOf(s, p).Some? && LabelsOf(s, p) == LabelsOf(s, q)
    ensures p == q
  {
    if s.schema == [] {
      PlainLabelsTell(s, p, q);
    } else {
      SchemaLabelsTell(s, p, q);
    }
  }

  lemma PlainLabelsTell(s: Sender, p: seq<string>, q: seq<string>)
    requires s.schema == [] && p != [] && q != [] && DotFree(p) && DotFree(q)
    requires LabelsOf(s, p) == LabelsOf(s, q)
    ensures p == q
  {
    var labels := LabelsOf(s, p).value;
    assert labels["sensor"] == s.prefix + Join(p) == s.prefix + Join(q);
    assert (s.prefix + Join(p))[|s.prefix|..] == Join(p) && (s.prefix + Join(q))[|s.prefix|..] == Join(q);
    SplitOfJoin(p);
    SplitOfJoin(q);
  }

  lemma SchemaLabelsTell(s: Sender, p: seq<string>, q: seq<string>)
    requires s.schema != [] && Telling(s) && p != [] && q != [] && DotFree(p) && DotFree(q)
    requires LabelsOf(s, p).Some? && LabelsOf(s, p) == LabelsOf(s, q)
    ensures p == q
  {
    var n := |s.schema|;
    NestedComponents(s, p);
    NestedComponents(s, q);
    forall i | 0 <= i < n ensures p[i] == q[i] {
      LabelAt(s, p, i);
      LabelAt(s, q, i);
    }
    LabelAt(s, p, 0);
    LabelAt(s, q, 0);
    SplitOfJoin(p[n..]);
    SplitOfJoin(q[n..]);
    assert p == p[..n] + p[n..] && q == q[..n] + q[n..];
    assert p[..n] == q[..n];
  }

  /** Changing a component matters only to the label it fills. */
  lemma {:induction false} OtherLabelsStay(schema: seq<string>, path: seq<string>, i: nat, x: string, k: nat, v: string)
    requires i < |schema| && k <= |schema| <= |path|
    ensures SchemaLabels(schema, path[i := x], k)[schema[i] := v] == SchemaLabels(schema, path, k)[schema[i] := v]
  {
    if k > 0 {
      OtherLabelsStay(schema, path, i, x, k - 1, v);
      var a, b := SchemaLabels(schema, path[i := x], k - 1), SchemaLabels(schema, path, k - 1);
      forall name ensures (name in a[schema[i] := v] <==> name in b[schema[i] := v])
        && (name in a && name in b && name != schema[i] ==> a[name] == b[name])
      {
        assert a[schema[i] := v] == b[schema[i] := v];
        if name in a && name in b && name != schema[i] {
          assert a[schema[i] := v][name] == b[schema[i] := v][name];
        }
      }
    }
  }

  /** A label that is filled again later hides what the earlier component was. */
  lemma {:induction false} HiddenLabels(schema: seq<string>, path: seq<string>, i: nat, j: nat, x: string, k: nat)
    requires i < j < k <= |schema| <= |path| && schema[i] == schema[j]
    ensures SchemaLabels(schema, path[i := x], k) == SchemaLabels(schema, path, k)
  {
    if j == k - 1 {
      OtherLabelsStay(schema, path, i, x, j, path[j]);
    } else {
      HiddenLabels(schema, path, i, j, x, k - 1);
    }
  }

  /** Otherwise two different paths do share their labels. */
  lemma LabelsClash(s: Sender) returns (p: seq<string>, q: seq<string>)
    requires !Telling(s)
    ensures p != q && p != [] && q != [] && DotFree(p) && DotFree(q)
    ensures LabelsOf(s, p).Some? && LabelsOf(s, p) == LabelsOf(s, q)
  {
    var n := |s.schema|;
    p := seq(n + 1, _ => "a");
    var i: nat;
    if j, m :| 0 <= j < m < n && s.schema[j] == s.schema[m] {
      i := j;
      HiddenLabels(s.schema, p, i, m, "b", n);
    } else if "sensor" in s.schema {
      i :| 0 <= i < n && s.schema[i] == "sensor";
      OtherLabelsStay(s.schema, p, i, "b", n, Join(p[n..]));
    } else {
      i :| 0 <= i < n && s.schema[i] == "prefix";
      OtherLabelsStay(s.schema, p, i, "b", n, TrimDots(s.prefix));
      var a, b := SchemaLabels(s.schema, p[i := "b"], n), SchemaLabels(s.schema, p, n);
      PrefixHides(a, b, Join(p[n..]), TrimDots(s.prefix));
    }
    q := p[i := "b"];
    assert q[n..] == p[n..];
    assert p[i] != q[i];
  }

  lemma PrefixHides(a: map<string, string>, b: map<string, string>, sensor: string, prefix: string)
    requires a["prefix" := prefix] == b["prefix" := prefix]
    ensures a["sensor" := sensor]["prefix" := prefix] == b["sensor" := sensor]["prefix" := prefix]
  {
    assert "sensor" != "prefix";
    assert a["sensor" := sensor]["prefix" := prefix] == a["prefix" := prefix]["sensor" := sensor];
    assert b["sensor" := sensor]["prefix" := prefix] == b["prefix" := prefix]["sensor" := sensor];
  }

  /**
   Flattening loses nothing: where the schema tells paths apart, no two sensors of one result carry
   the same labels.
   */
  lemma SensorsAreToldApart(s: Sender, rv: Value, timestamp: int, sensors: seq<Sensor>, i: nat, j: nat)
    requires Telling(s) && rv.Dict? && WellKeyed(rv)
    requires forall m, n :: 0 <= m < n < |s.fields| ==> s.fields[m] != s.fields[n]
    requires forall leaf :: leaf in AllLeaves(s.fields, [], rv) ==> DotFree(leaf.path)
    requires SensorsOf(s, AllLeaves(s.fields, [], rv), timestamp) == Some(sensors) && i < j < |sensors|
    ensures sensors[i].labels != sensors[j].labels
  {
    var leaves := AllLeaves(s.fields, [], rv);
    OneSensorPerLeaf(s, leaves, timestamp);
    LeafPathsDiffer(s.fields, [], rv, Size(rv), i, j);
    var m := LeafIsUnder(s.fields, [], rv, Size(rv), i);
    var n := LeafIsUnder(s.fields, [], rv, Size(rv), j);
    if sensors[i].labels == sensors[j].labels {
      LabelsTell(s, leaves[i].path, leaves[j].path);
    }
  }
}
